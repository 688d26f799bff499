/** EnsureRecordSet: one zone read, then PATCHes until PowerDNS holds the record set. */
module Ensure {
  import opened Text
  import opened Sorting
  import opened PowerDns
  import opened PatchOrder
  import opened Isolation
  import opened RecordSets

  const PATCH_CHUNK_SIZE := 500

  // ----- what to send -------------------------------------------------------

  /** The owner names of a record set, each once, in the order they are met. */
  method DistinctOwners(records: seq<Entry>) returns (names: seq<string>)
    ensures forall x :: x in names <==> x in OwnerNames(records)
    ensures forall i, j :: 0 <= i < j < |names| ==> names[i] != names[j]
  {
    names := [];
    for i := 0 to |records|
      invariant forall x :: x in names <==> x in OwnerNames(records[..i])
      invariant forall a, b :: 0 <= a < b < |names| ==> names[a] != names[b]
    {
      assert records[..i + 1] == records[..i] + [records[i]];
      assert OwnerNames(records[..i + 1]) == OwnerNames(records[..i]) + {records[i].name};
      if records[i].name !in names {
        names := names + [records[i].name];
      }
    }
    assert records[..|records|] == records;
  }

  method SortedOwners(records: seq<Entry>) returns (owners: seq<string>)
    ensures forall x :: x in owners <==> x in OwnerNames(records)
    ensures forall i, j :: 0 <= i < j < |owners| ==> owners[i] != owners[j]
    ensures Sorted(Leq, owners)
  {
    var names := DistinctOwners(records);
    owners := Sort(Leq, names);
    StringOrdering();
    SortSorted(Leq, names);
    DistinctPermutation(names, owners, (x: string) => x);
  }

  lemma StringOrdering()
    ensures Ordering(Leq)
  {
    forall x, y ensures Leq(x, y) || Leq(y, x) { LeqTotal(x, y); }
    forall x, y, z | Leq(x, y) && Leq(y, z) ensures Leq(x, z) { LeqTransitive(x, y, z); }
  }

  /** An RRset is rewritten unless the zone read shows this object's own stamp. */
  predicate NeedsWrite(zone: string, rs: RecordSet, z: Zone, skip: bool, owner: string) {
    !(skip && KeyOf(zone, rs, owner) in z && MatchesObject(z[KeyOf(zone, rs, owner)], rs))
  }

  /** The RRsets this record set wrote and no longer wants, in any order. */
  method OwnedSurplus(zone: string, rs: RecordSet, z: Zone) returns (surplus: seq<Change>)
    ensures forall c :: c in surplus <==> c.Delete? && Surplus(zone, rs, z, c.key)
    ensures DistinctKeys(surplus)
  {
    surplus := [];
    var rest := z.Keys;
    while rest != {}
      invariant rest <= z.Keys
      invariant forall c :: c in surplus <==> c.Delete? && c.key !in rest && Surplus(zone, rs, z, c.key)
      invariant DistinctKeys(surplus)
    {
      var k :| k in rest;
      rest := rest - {k};
      if StampedRef(z[k].comments) == Ref(rs) && !Desires(zone, rs, k) {
        assert forall i :: 0 <= i < |surplus| ==> surplus[i] in surplus && surplus[i].key != k;
        surplus := surplus + [Delete(k)];
      }
    }
  }

  predicate AtName(name: string, c: Change) {
    c.key.name == name
  }

  function AtNameOf(name: string): Change -> bool {
    (c: Change) => AtName(name, c)
  }

  predicate Written(writes: seq<Change>, name: string) {
    exists r | r in writes :: r.key.name == name
  }

  function Unpaired(writes: seq<Change>): Change -> bool {
    (c: Change) => !Written(writes, c.key.name)
  }

  /** A replace and the deletes at its name. */
  function Paired(r: Change, deletes: seq<Change>): seq<Change> {
    [r] + Filter(AtNameOf(r.key.name), deletes)
  }

  ghost predicate DistinctNames(writes: seq<Change>) {
    forall i, j :: 0 <= i < j < |writes| ==> writes[i].key.name != writes[j].key.name
  }

  lemma FilterLast(p: Change -> bool, s: seq<Change>, n: nat)
    requires n < |s|
    ensures Filter(p, s[..n + 1]) == Filter(p, s[..n]) + if p(s[n]) then [s[n]] else []
  {
    assert s[..n + 1] == s[..n] + [s[n]];
    FilterConcat(p, s[..n], [s[n]]);
  }

  lemma PairedNext(writes: seq<Change>, deletes: seq<Change>, n: nat)
    requires n < |deletes|
    ensures forall i :: 0 <= i < |writes| ==>
              Paired(writes[i], deletes[..n + 1])
              == Paired(writes[i], deletes[..n]) + if writes[i].key.name == deletes[n].key.name then [deletes[n]] else []
  {
    forall i | 0 <= i < |writes| ensures
      Paired(writes[i], deletes[..n + 1])
      == Paired(writes[i], deletes[..n]) + if writes[i].key.name == deletes[n].key.name then [deletes[n]] else []
    {
      FilterLast(AtNameOf(writes[i].key.name), deletes, n);
    }
  }

  /** Deletes travel with the replace at their name; the others are returned apart. */
  method PairDeletes(writes: seq<Change>, deletes: seq<Change>) returns (changes: seq<seq<Change>>, rest: seq<Change>)
    requires DistinctNames(writes)
    ensures |changes| == |writes| && forall i :: 0 <= i < |writes| ==> changes[i] == Paired(writes[i], deletes)
    ensures rest == Filter(Unpaired(writes), deletes)
  {
    changes := seq(|writes|, i requires 0 <= i < |writes| => [writes[i]]);
    rest := [];
    for n := 0 to |deletes|
      invariant |changes| == |writes|
      invariant forall i :: 0 <= i < |writes| ==> changes[i] == Paired(writes[i], deletes[..n])
      invariant rest == Filter(Unpaired(writes), deletes[..n])
    {
      var c := deletes[n];
      FilterLast(Unpaired(writes), deletes, n);
      PairedNext(writes, deletes, n);
      var at := IndexAt(writes, c.key.name);
      if at.None? {
        rest := rest + [c];
      } else {
        assert writes[at.value] in writes;
        changes := changes[at.value := changes[at.value] + [c]];
      }
    }
    assert deletes[..|deletes|] == deletes;
  }

  method IndexAt(writes: seq<Change>, name: string) returns (at: Option<nat>)
    ensures at.Some? ==> at.value < |writes| && writes[at.value].key.name == name
    ensures at.None? ==> !Written(writes, name)
  {
    for i := 0 to |writes|
      invariant forall j :: 0 <= j < i ==> writes[j].key.name != name
    {
      if writes[i].key.name == name {
        return Some(i);
      }
    }
    return None;
  }

  // ----- the groups ---------------------------------------------------------

  ghost predicate Deletes(deletes: seq<Change>) {
    DistinctKeys(deletes) && forall c :: c in deletes ==> c.Delete?
  }

  lemma {:induction false} FilterDistinct(p: Change -> bool, s: seq<Change>)
    requires DistinctKeys(s)
    ensures DistinctKeys(Filter(p, s))
  {
    if s != [] {
      FilterDistinct(p, s[1..]);
      var f := Filter(p, s[1..]);
      forall c | c in f ensures c.key != s[0].key {
        assert c in s[1..];
      }
      assert forall i :: 0 <= i < |f| ==> f[i] in f;
    }
  }

  lemma PairedGroup(r: Change, deletes: seq<Change>)
    requires r.Replace? && Deletes(deletes) && forall c :: c in deletes ==> c.key != r.key
    ensures Group(Paired(r, deletes))
  {
    var f := Filter(AtNameOf(r.key.name), deletes);
    FilterDistinct(AtNameOf(r.key.name), deletes);
    assert forall i :: 0 <= i < |f| ==> f[i] in f;
    DistinctConcat([r], f);
  }

  /** At its own name a group writes the replace, deletes what is surplus and leaves the rest. */
  lemma PairedFind(r: Change, deletes: seq<Change>, k: Key)
    requires r.Replace? && Deletes(deletes) && (forall c :: c in deletes ==> c.key != r.key) && k.name == r.key.name
    ensures Find(Paired(r, deletes), k) == if k == r.key then Some(r) else if Delete(k) in deletes then Some(Delete(k)) else None
  {
    var g := Paired(r, deletes);
    PairedGroup(r, deletes);
    FindMember(g, k);
    assert r in g && forall c :: c in g ==> c == r || c in deletes;
    if k == r.key {
      FindIn(g, r);
    } else if Delete(k) in deletes {
      assert Delete(k) in Filter(AtNameOf(r.key.name), deletes);
      FindIn(g, Delete(k));
    }
  }

  // ----- sending in chunks --------------------------------------------------

  lemma SettledLocal(z: Zone, y: Zone, g: seq<Change>, err: Option<Outcome>, after: Zone, later: Zone)
    requires Group(g) && Settled(y, g, err, after)
    requires AgreeAt(z, y, g[0].key.name) && AgreeAt(after, later, g[0].key.name)
    ensures Settled(z, g, err, later)
  {
    var name := g[0].key.name;
    BlockedLocal(z, y, g, g[0].key);
    if Carried(y, g, after) {
      forall k: Key | k.name == name ensures At(later, k) == Meant(At(z, k), Find(g, k)) {
        assert At(z, Key(name, k.rtype)) == At(y, Key(name, k.rtype));
        assert At(after, Key(name, k.rtype)) == At(later, Key(name, k.rtype));
      }
    }
    if Kept(y, g, after) {
      forall rtype ensures At(z, Key(name, rtype)) == At(later, Key(name, rtype)) {
        assert At(z, Key(name, rtype)) == At(y, Key(name, rtype));
      }
    }
  }

  /** The first `n` changes are settled and no other name is touched. */
  ghost predicate SettledSoFar(z: Zone, changes: seq<seq<Change>>, errs: seq<Option<Outcome>>, after: Zone, n: nat)
    requires Groups(changes)
  {
    n <= |changes| && |errs| == n && Normal(after) && EachSettledUpTo(z, changes, errs, after, n) && UntouchedBeyond(z, changes, after, n)
  }

  ghost predicate EachSettledUpTo(z: Zone, changes: seq<seq<Change>>, errs: seq<Option<Outcome>>, after: Zone, n: nat)
    requires Groups(changes) && n <= |changes| && |errs| == n
  {
    forall i :: 0 <= i < n ==> Settled(z, changes[i], errs[i], after)
  }

  ghost predicate UntouchedBeyond(z: Zone, changes: seq<seq<Change>>, after: Zone, n: nat)
    requires Groups(changes) && n <= |changes|
  {
    forall k: Key :: (forall i :: 0 <= i < n ==> changes[i][0].key.name != k.name) ==> At(after, k) == At(z, k)
  }

  lemma SliceGroups(changes: seq<seq<Change>>, start: nat, end: nat)
    requires Groups(changes) && start <= end <= |changes|
    ensures Groups(changes[start..end])
  {
    var part := changes[start..end];
    forall i | 0 <= i < |part| ensures Group(part[i]) { assert part[i] == changes[start + i]; }
  }

  lemma ElsewhereAgrees(z: Zone, changes: seq<seq<Change>>, after: Zone, name: string)
    requires Groups(changes) && ElsewhereKept(z, changes, after)
    requires forall i :: 0 <= i < |changes| ==> changes[i][0].key.name != name
    ensures AgreeAt(z, after, name)
  {
    forall rtype ensures At(z, Key(name, rtype)) == At(after, Key(name, rtype)) {
      assert Key(name, rtype).name == name;
    }
  }

  lemma EarlierSettled(z: Zone, changes: seq<seq<Change>>, errs: seq<Option<Outcome>>, y: Zone, start: nat, end: nat, after: Zone, i: nat)
    requires Groups(changes) && SettledSoFar(z, changes, errs, y, start) && start <= end <= |changes| && i < start
    requires Groups(changes[start..end]) && ElsewhereKept(y, changes[start..end], after)
    ensures Settled(z, changes[i], errs[i], after)
  {
    var part := changes[start..end];
    assert forall j :: 0 <= j < |part| ==> part[j] == changes[start + j];
    ElsewhereAgrees(y, part, after, changes[i][0].key.name);
    assert Group(changes[i]);
    SettledLocal(z, z, changes[i], errs[i], y, after);
  }

  lemma LaterSettled(z: Zone, changes: seq<seq<Change>>, errs: seq<Option<Outcome>>, y: Zone, start: nat, end: nat, err: Option<Outcome>, after: Zone, i: nat)
    requires Groups(changes) && SettledSoFar(z, changes, errs, y, start) && start <= i < end <= |changes|
    requires Settled(y, changes[i], err, after)
    ensures Settled(z, changes[i], err, after)
  {
    var name := changes[i][0].key.name;
    forall rtype ensures At(z, Key(name, rtype)) == At(y, Key(name, rtype)) {
      assert forall j :: 0 <= j < start ==> changes[j][0].key.name != Key(name, rtype).name;
    }
    assert Group(changes[i]);
    SettledLocal(z, y, changes[i], err, after, after);
  }

  lemma ChunkKeepsElsewhere(z: Zone, changes: seq<seq<Change>>, errs: seq<Option<Outcome>>, y: Zone, start: nat, end: nat, after: Zone, k: Key)
    requires Groups(changes) && SettledSoFar(z, changes, errs, y, start) && start <= end <= |changes|
    requires Groups(changes[start..end]) && ElsewhereKept(y, changes[start..end], after)
    requires forall i :: 0 <= i < end ==> changes[i][0].key.name != k.name
    ensures At(after, k) == At(z, k)
  {
    var part := changes[start..end];
    assert forall j :: 0 <= j < |part| ==> part[j] == changes[start + j] && part[j][0].key.name != k.name;
  }

  lemma InChunkSettled(z: Zone, changes: seq<seq<Change>>, errs: seq<Option<Outcome>>, y: Zone, start: nat, end: nat, more: seq<Option<Outcome>>, after: Zone, i: nat)
    requires Groups(changes) && SettledSoFar(z, changes, errs, y, start) && start <= i < end <= |changes|
    requires Groups(changes[start..end]) && Done(y, changes[start..end], more, after)
    ensures Settled(z, changes[i], more[i - start], after)
  {
    var part := changes[start..end];
    assert part[i - start] == changes[i];
    assert Settled(y, part[i - start], more[i - start], after);
    LaterSettled(z, changes, errs, y, start, end, more[i - start], after, i);
  }

  lemma EarlierStaySettled(z: Zone, changes: seq<seq<Change>>, errs: seq<Option<Outcome>>, y: Zone, start: nat, end: nat, after: Zone)
    requires Groups(changes) && SettledSoFar(z, changes, errs, y, start) && start <= end <= |changes|
    requires Groups(changes[start..end]) && ElsewhereKept(y, changes[start..end], after)
    ensures EachSettledUpTo(z, changes, errs, after, start)
  {
    forall i | 0 <= i < start ensures Settled(z, changes[i], errs[i], after) {
      EarlierSettled(z, changes, errs, y, start, end, after, i);
    }
  }

  ghost predicate EachSettledFrom(z: Zone, changes: seq<seq<Change>>, more: seq<Option<Outcome>>, after: Zone, start: nat)
    requires Groups(changes) && start + |more| <= |changes|
  {
    forall i :: start <= i < start + |more| ==> Settled(z, changes[i], more[i - start], after)
  }

  lemma ChunkGetsSettled(z: Zone, changes: seq<seq<Change>>, errs: seq<Option<Outcome>>, y: Zone, start: nat, end: nat, more: seq<Option<Outcome>>, after: Zone)
    requires Groups(changes) && SettledSoFar(z, changes, errs, y, start) && start <= end <= |changes|
    requires Groups(changes[start..end]) && Done(y, changes[start..end], more, after)
    ensures EachSettledFrom(z, changes, more, after, start)
  {
    forall i | start <= i < end ensures Settled(z, changes[i], more[i - start], after) {
      InChunkSettled(z, changes, errs, y, start, end, more, after, i);
    }
  }

  lemma ChunkSettlesEach(z: Zone, changes: seq<seq<Change>>, errs: seq<Option<Outcome>>, more: seq<Option<Outcome>>, after: Zone)
    requires Groups(changes) && |errs| + |more| <= |changes|
    requires EachSettledUpTo(z, changes, errs, after, |errs|) && EachSettledFrom(z, changes, more, after, |errs|)
    ensures EachSettledUpTo(z, changes, errs + more, after, |errs| + |more|)
  {
  }

  lemma ChunkLeavesElsewhere(z: Zone, changes: seq<seq<Change>>, errs: seq<Option<Outcome>>, y: Zone, start: nat, end: nat, after: Zone)
    requires Groups(changes) && SettledSoFar(z, changes, errs, y, start) && start <= end <= |changes|
    requires Groups(changes[start..end]) && ElsewhereKept(y, changes[start..end], after)
    ensures UntouchedBeyond(z, changes, after, end)
  {
    forall k: Key | forall i :: 0 <= i < end ==> changes[i][0].key.name != k.name ensures At(after, k) == At(z, k) {
      ChunkKeepsElsewhere(z, changes, errs, y, start, end, after, k);
    }
  }

  lemma ChunkSettles(z: Zone, changes: seq<seq<Change>>, errs: seq<Option<Outcome>>, y: Zone, start: nat, end: nat, more: seq<Option<Outcome>>, after: Zone)
    requires Groups(changes) && SettledSoFar(z, changes, errs, y, start) && start <= end <= |changes|
    requires Groups(changes[start..end]) && Done(y, changes[start..end], more, after)
    ensures SettledSoFar(z, changes, errs + more, after, end)
  {
    ChunkLeavesElsewhere(z, changes, errs, y, start, end, after);
    EarlierStaySettled(z, changes, errs, y, start, end, after);
    ChunkGetsSettled(z, changes, errs, y, start, end, more, after);
    ChunkSettlesEach(z, changes, errs, more, after);
  }

  /** The changes go out in windows of at most the chunk size. */
  method ApplyInChunks(server: Server, changes: seq<seq<Change>>) returns (errs: seq<Option<Outcome>>)
    requires Groups(changes) && Normal(server.zone)
    modifies server
    ensures SettledSoFar(old(server.zone), changes, errs, server.zone, |changes|)
    ensures changes == [] ==> server.patches == old(server.patches)
  {
    ghost var z := server.zone;
    errs := [];
    var start := 0;
    while start < |changes|
      invariant start <= |changes| && SettledSoFar(z, changes, errs, server.zone, start)
      invariant changes == [] ==> server.patches == old(server.patches)
    {
      var end := if start + PATCH_CHUNK_SIZE > |changes| then |changes| else start + PATCH_CHUNK_SIZE;
      SliceGroups(changes, start, end);
      ghost var y := server.zone;
      var more := ApplyIsolatingRefusals(server, changes[start..end]);
      ChunkSettles(z, changes, errs, y, start, end, more, server.zone);
      errs := errs + more;
      start := end;
    }
  }

  /** Each of the deletes is gone or, if something failed, may have stayed. */
  ghost predicate Deleted(z: Zone, deletes: seq<Change>, ok: bool, after: Zone) {
    && Normal(after)
    && forall k :: if Delete(k) in deletes then At(after, k) == EMPTY || (!ok && At(after, k) == At(z, k))
                   else At(after, k) == At(z, k)
  }

  ghost predicate DeletedSoFar(z: Zone, deletes: seq<Change>, ok: bool, after: Zone, n: nat) {
    n <= |deletes| && Deleted(z, deletes[..n], ok, after)
  }

  lemma SliceDeletes(deletes: seq<Change>, start: nat, end: nat)
    requires Deletes(deletes) && start <= end <= |deletes|
    ensures Batch(deletes[start..end]) && forall i :: 0 <= i < |deletes[start..end]| ==> deletes[start..end][i].Delete?
  {
    var part := deletes[start..end];
    forall i | 0 <= i < |part| ensures part[i].Delete? { assert part[i] == deletes[start + i] && part[i] in deletes; }
    assert forall c :: c in part ==> c in deletes;
  }

  lemma DeletesFind(part: seq<Change>, k: Key)
    requires Batch(part) && forall i :: 0 <= i < |part| ==> part[i].Delete?
    ensures Find(part, k) == if Delete(k) in part then Some(Delete(k)) else None
  {
    FindMember(part, k);
    if Delete(k) in part { FindIn(part, Delete(k)); }
  }

  lemma DeleteBatch(y: Zone, part: seq<Change>, outcome: Outcome, after: Zone, k: Key)
    requires Batch(part) && (forall i :: 0 <= i < |part| ==> part[i].Delete?) && Answers(y, Sent(part), outcome, after)
    ensures Delete(k) in part ==> At(after, k) == EMPTY || (outcome.Failed? && At(after, k) == At(y, k))
    ensures Delete(k) !in part ==> At(after, k) == At(y, k)
    ensures Normal(y) ==> Normal(after)
    ensures !outcome.Refusal?
  {
    SentMeans(y, part, k);
    DeletesFind(part, k);
    forall q ensures q !in Refused(y, Sent(part)) {
      SentMeans(y, part, q);
      DeletesFind(part, q);
    }
  }

  lemma DeleteMore(z: Zone, before: seq<Change>, part: seq<Change>, ok: bool, y: Zone, outcome: Outcome, after: Zone)
    requires Batch(part) && (forall i :: 0 <= i < |part| ==> part[i].Delete?) && Answers(y, Sent(part), outcome, after)
    requires Deleted(z, before, ok, y)
    ensures Deleted(z, before + part, ok && outcome.Applied?, after)
  {
    DeleteBatch(y, part, outcome, after, Key("", ""));
    forall k ensures if Delete(k) in before + part
                     then At(after, k) == EMPTY || (!(ok && outcome.Applied?) && At(after, k) == At(z, k))
                     else At(after, k) == At(z, k)
    {
      DeleteBatch(y, part, outcome, after, k);
    }
  }

  lemma DeleteChunk(z: Zone, deletes: seq<Change>, ok: bool, y: Zone, start: nat, end: nat, outcome: Outcome, after: Zone)
    requires Deletes(deletes) && DeletedSoFar(z, deletes, ok, y, start) && start <= end <= |deletes|
    requires Answers(y, Sent(deletes[start..end]), outcome, after)
    ensures DeletedSoFar(z, deletes, ok && outcome.Applied?, after, end)
  {
    SliceDeletes(deletes, start, end);
    DeleteMore(z, deletes[..start], deletes[start..end], ok, y, outcome, after);
    PrefixSplit(deletes, start, end);
  }

  /** A failed chunk of deletes is logged and the next one still goes out. */
  method ApplyDeletes(server: Server, deletes: seq<Change>) returns (ok: bool)
    requires Deletes(deletes) && Normal(server.zone)
    modifies server
    ensures DeletedSoFar(old(server.zone), deletes, ok, server.zone, |deletes|)
    ensures deletes == [] ==> server.patches == old(server.patches)
  {
    ghost var z := server.zone;
    ok := true;
    var start := 0;
    while start < |deletes|
      invariant start <= |deletes| && DeletedSoFar(z, deletes, ok, server.zone, start)
      invariant deletes == [] ==> server.patches == old(server.patches)
    {
      var end := if start + PATCH_CHUNK_SIZE > |deletes| then |deletes| else start + PATCH_CHUNK_SIZE;
      ghost var y := server.zone;
      var outcome := server.Patch(Sent(deletes[start..end]));
      DeleteChunk(z, deletes, ok, y, start, end, outcome, server.zone);
      ok := ok && outcome.Applied?;
      start := end;
    }
  }
}
