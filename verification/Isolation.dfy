/** Isolating refusals: one PATCH for many changes, dropping the refused ones until the rest goes through. */
module Isolation {
  import opened Text
  import opened PowerDns
  import opened PatchOrder

  /** A replace and the deletes that travel with it, all at one name. */
  ghost predicate Group(g: seq<Change>) {
    && g != [] && g[0].Replace?
    && (forall i :: 0 < i < |g| ==> g[i].Delete?)
    && (forall i :: 0 <= i < |g| ==> g[i].key.name == g[0].key.name)
    && DistinctKeys(g)
  }

  ghost predicate Groups(changes: seq<seq<Change>>) {
    && (forall i :: 0 <= i < |changes| ==> Group(changes[i]))
    && (forall i, j :: 0 <= i < j < |changes| ==> changes[i][0].key.name != changes[j][0].key.name)
  }

  ghost predicate Pending(changes: seq<seq<Change>>, pending: seq<nat>) {
    && (forall i :: 0 <= i < |pending| ==> pending[i] < |changes|)
    && (forall i, j :: 0 <= i < j < |pending| ==> pending[i] < pending[j])
  }

  function Joined(changes: seq<seq<Change>>, pending: seq<nat>): seq<Change>
    requires forall i :: 0 <= i < |pending| ==> pending[i] < |changes|
  {
    if pending == [] then []
    else Joined(changes, pending[..|pending| - 1]) + changes[pending[|pending| - 1]]
  }

  // ----- one change alone ---------------------------------------------------

  /** Sending a change by itself. */
  function Alone(z: Zone, g: seq<Change>): Zone {
    if Refused(z, Sent(g)) == {} then Effects(z, Sent(g)) else z
  }

  function OneAtATime(z: Zone, changes: seq<seq<Change>>): Zone {
    if changes == [] then z else Alone(OneAtATime(z, changes[..|changes| - 1]), changes[|changes| - 1])
  }

  /** The change is refused at its own name, whatever else is sent. */
  predicate RefusedAlone(z: Zone, g: seq<Change>)
    requires g != []
  {
    Blocked(z, g, g[0].key)
  }

  ghost predicate AgreeAt(a: Zone, b: Zone, name: string) {
    forall rtype :: At(a, Key(name, rtype)) == At(b, Key(name, rtype))
  }

  lemma GroupBatch(g: seq<Change>)
    requires Group(g)
    ensures Batch(g)
    ensures forall k :: Writes(g, k) <==> k == g[0].key
    ensures forall k: Key :: k.name != g[0].key.name ==> Find(g, k).None?
  {
    forall k: Key ensures (Writes(g, k) <==> k == g[0].key) && (k.name != g[0].key.name ==> Find(g, k).None?) {
      FindMember(g, k);
      FindIn(g, g[0]);
    }
  }

  lemma BlockedLocal(a: Zone, b: Zone, g: seq<Change>, k: Key)
    requires AgreeAt(a, b, k.name)
    ensures Blocked(a, g, k) <==> Blocked(b, g, k)
  {
    if Blocked(a, g, k) { BlockedFollows(a, b, g, k); }
    if Blocked(b, g, k) { BlockedFollows(b, a, g, k); }
  }

  lemma BlockedFollows(a: Zone, b: Zone, g: seq<Change>, k: Key)
    requires AgreeAt(a, b, k.name) && Blocked(a, g, k)
    ensures Blocked(b, g, k)
  {
    var q :| q in a && q.name == k.name && Excludes(q.rtype, k.rtype) && a[q].data.Some? && Find(g, q) != Some(Delete(q));
    assert At(a, Key(k.name, q.rtype)) == At(b, Key(k.name, q.rtype));
  }

  lemma AloneMeans(z: Zone, g: seq<Change>, k: Key)
    requires Group(g)
    ensures Refused(z, Sent(g)) == {} <==> !RefusedAlone(z, g)
    ensures At(Alone(z, g), k) == if RefusedAlone(z, g) then At(z, k) else Meant(At(z, k), Find(g, k))
    ensures Normal(z) ==> Normal(Alone(z, g))
  {
    GroupBatch(g);
    SentMeans(z, g, k);
    forall q ensures q in Refused(z, Sent(g)) <==> Writes(g, q) && Blocked(z, g, q) { SentMeans(z, g, q); }
  }

  /** What becomes of an RRset when each change is sent by itself. */
  lemma {:induction false} OneAtATimeElsewhere(z: Zone, changes: seq<seq<Change>>, k: Key)
    requires Groups(changes) && forall i :: 0 <= i < |changes| ==> changes[i][0].key.name != k.name
    ensures At(OneAtATime(z, changes), k) == At(z, k)
  {
    if changes != [] {
      var before, g := changes[..|changes| - 1], changes[|changes| - 1];
      OneAtATimeElsewhere(z, before, k);
      AloneMeans(OneAtATime(z, before), g, k);
      GroupBatch(g);
    }
  }

  /** Changes at other names do not decide whether a change is refused. */
  lemma RefusedAnywhere(z: Zone, before: seq<seq<Change>>, g: seq<Change>)
    requires Groups(before) && Group(g) && forall i :: 0 <= i < |before| ==> before[i][0].key.name != g[0].key.name
    ensures RefusedAlone(OneAtATime(z, before), g) <==> RefusedAlone(z, g)
  {
    var name := g[0].key.name;
    forall rtype ensures At(OneAtATime(z, before), Key(name, rtype)) == At(z, Key(name, rtype)) {
      OneAtATimeElsewhere(z, before, Key(name, rtype));
    }
    BlockedLocal(OneAtATime(z, before), z, g, g[0].key);
  }

  lemma {:induction false} OneAtATimeAt(z: Zone, changes: seq<seq<Change>>, n: nat, k: Key)
    requires Groups(changes) && n < |changes| && changes[n][0].key.name == k.name
    ensures At(OneAtATime(z, changes), k)
            == if RefusedAlone(z, changes[n]) then At(z, k) else Meant(At(z, k), Find(changes[n], k))
  {
    var before, g := changes[..|changes| - 1], changes[|changes| - 1];
    if n < |changes| - 1 {
      assert before[n] == changes[n] && before[n][0].key.name != g[0].key.name;
      OneAtATimeAt(z, before, n, k);
      AloneElsewhere(OneAtATime(z, before), g, k);
    } else {
      LastAlone(z, before, g, k);
    }
  }

  lemma LastAlone(z: Zone, before: seq<seq<Change>>, g: seq<Change>, k: Key)
    requires Groups(before) && Group(g) && k.name == g[0].key.name
    requires forall i :: 0 <= i < |before| ==> before[i][0].key.name != g[0].key.name
    ensures At(Alone(OneAtATime(z, before), g), k) == if RefusedAlone(z, g) then At(z, k) else Meant(At(z, k), Find(g, k))
  {
    OneAtATimeElsewhere(z, before, k);
    RefusedAnywhere(z, before, g);
    AloneMeans(OneAtATime(z, before), g, k);
  }

  lemma AloneElsewhere(z: Zone, g: seq<Change>, k: Key)
    requires Group(g) && k.name != g[0].key.name
    ensures At(Alone(z, g), k) == At(z, k)
  {
    AloneMeans(z, g, k);
    GroupBatch(g);
  }

  lemma {:induction false} OneAtATimeNormal(z: Zone, changes: seq<seq<Change>>)
    requires Groups(changes) && Normal(z)
    ensures Normal(OneAtATime(z, changes))
  {
    if changes != [] {
      OneAtATimeNormal(z, changes[..|changes| - 1]);
      AloneMeans(OneAtATime(z, changes[..|changes| - 1]), changes[|changes| - 1], Key("", ""));
    }
  }

  // ----- many changes in one PATCH ------------------------------------------

  lemma {:induction false} JoinedMember(changes: seq<seq<Change>>, pending: seq<nat>, c: Change)
    requires Pending(changes, pending)
    ensures c in Joined(changes, pending) <==> exists i :: 0 <= i < |pending| && c in changes[pending[i]]
  {
    if pending != [] {
      JoinedMember(changes, pending[..|pending| - 1], c);
      var last := |pending| - 1;
      if c in changes[pending[last]] { assert 0 <= last < |pending|; }
      if i :| 0 <= i < |pending[..last]| && c in changes[pending[..last][i]] { assert pending[i] == pending[..last][i]; }
    }
  }

  lemma JoinedMemberOf(changes: seq<seq<Change>>, pending: seq<nat>, c: Change) returns (i: nat)
    requires Groups(changes) && Pending(changes, pending) && c in Joined(changes, pending)
    ensures i < |pending| && c in changes[pending[i]] && c.key.name == changes[pending[i]][0].key.name
  {
    JoinedMember(changes, pending, c);
    i :| 0 <= i < |pending| && c in changes[pending[i]];
    assert Group(changes[pending[i]]);
  }

  lemma {:induction false} JoinedKeys(changes: seq<seq<Change>>, pending: seq<nat>)
    requires Groups(changes) && Pending(changes, pending)
    ensures DistinctKeys(Joined(changes, pending))
  {
    if pending != [] {
      var before, g := pending[..|pending| - 1], changes[pending[|pending| - 1]];
      JoinedKeys(changes, before);
      forall c, d | c in Joined(changes, before) && d in g ensures c.key != d.key {
        var i := JoinedMemberOf(changes, before, c);
        assert Group(g) && before[i] < pending[|pending| - 1];
      }
      DistinctConcat(Joined(changes, before), g);
    }
  }

  lemma DistinctConcat(a: seq<Change>, b: seq<Change>)
    requires DistinctKeys(a) && DistinctKeys(b) && forall c, d :: c in a && d in b ==> c.key != d.key
    ensures DistinctKeys(a + b)
  {
    var s := a + b;
    forall i, j | 0 <= i < j < |s| ensures s[i].key != s[j].key {
      if i < |a| <= j { assert s[i] in a && s[j] in b; }
    }
  }

  lemma JoinedBatch(changes: seq<seq<Change>>, pending: seq<nat>)
    requires Groups(changes) && Pending(changes, pending)
    ensures Batch(Joined(changes, pending))
  {
    var batch := Joined(changes, pending);
    JoinedKeys(changes, pending);
    forall c | c in batch ensures !c.Clear? {
      var i := JoinedMemberOf(changes, pending, c);
      assert Group(changes[pending[i]]);
    }
    assert NoClears(batch) by { forall i | 0 <= i < |batch| ensures !batch[i].Clear? { assert batch[i] in batch; } }
    forall c, d | c in batch && d in batch && c.Replace? && d.Replace? && c.key.name == d.key.name ensures c.key == d.key {
      SameGroup(changes, pending, c, d);
    }
  }

  lemma SameGroup(changes: seq<seq<Change>>, pending: seq<nat>, c: Change, d: Change)
    requires Groups(changes) && Pending(changes, pending)
    requires c in Joined(changes, pending) && d in Joined(changes, pending)
    requires c.Replace? && d.Replace? && c.key.name == d.key.name
    ensures c == d
  {
    var i := JoinedMemberOf(changes, pending, c);
    var j := JoinedMemberOf(changes, pending, d);
    assert pending[i] == pending[j];
    assert Group(changes[pending[i]]);
  }

  /** At the name of a pending change, the batch says what that change says. */
  lemma JoinedFind(changes: seq<seq<Change>>, pending: seq<nat>, n: nat, k: Key)
    requires Groups(changes) && Pending(changes, pending) && n < |pending| && changes[pending[n]][0].key.name == k.name
    ensures Find(Joined(changes, pending), k) == Find(changes[pending[n]], k)
  {
    var batch, g := Joined(changes, pending), changes[pending[n]];
    JoinedKeys(changes, pending);
    FindMember(batch, k);
    FindMember(g, k);
    assert Group(g);
    if Find(g, k).Some? {
      JoinedMember(changes, pending, Find(g, k).value);
      FindIn(batch, Find(g, k).value);
    } else if Find(batch, k).Some? {
      var i := JoinedMemberOf(changes, pending, Find(batch, k).value);
      assert pending[i] == pending[n];
      FindIn(g, Find(batch, k).value);
    }
  }

  lemma JoinedFindNone(changes: seq<seq<Change>>, pending: seq<nat>, k: Key)
    requires Groups(changes) && Pending(changes, pending)
    requires forall i :: 0 <= i < |pending| ==> changes[pending[i]][0].key.name != k.name
    ensures Find(Joined(changes, pending), k).None?
  {
    FindMember(Joined(changes, pending), k);
    if Find(Joined(changes, pending), k).Some? {
      var i := JoinedMemberOf(changes, pending, Find(Joined(changes, pending), k).value);
    }
  }

  lemma BlockedJoined(z: Zone, changes: seq<seq<Change>>, pending: seq<nat>, n: nat)
    requires Groups(changes) && Pending(changes, pending) && n < |pending|
    ensures Blocked(z, Joined(changes, pending), changes[pending[n]][0].key) <==> RefusedAlone(z, changes[pending[n]])
  {
    var batch, g := Joined(changes, pending), changes[pending[n]];
    forall q: Key | q.name == g[0].key.name ensures Find(batch, q) == Find(g, q) { JoinedFind(changes, pending, n, q); }
    BlockedSameFinds(z, batch, g, g[0].key);
  }

  lemma BlockedSameFinds(z: Zone, a: seq<Change>, b: seq<Change>, k: Key)
    requires forall q: Key :: q.name == k.name ==> Find(a, q) == Find(b, q)
    ensures Blocked(z, a, k) <==> Blocked(z, b, k)
  {
    if Blocked(z, a, k) {
      var q :| q in z && q.name == k.name && Excludes(q.rtype, k.rtype) && z[q].data.Some? && Find(a, q) != Some(Delete(q));
      assert Find(b, q) == Find(a, q);
    }
    if Blocked(z, b, k) {
      var q :| q in z && q.name == k.name && Excludes(q.rtype, k.rtype) && z[q].data.Some? && Find(b, q) != Some(Delete(q));
      assert Find(a, q) == Find(b, q);
    }
  }

  /** A batch refuses a change exactly when sending it alone would. */
  lemma BatchRefuses(z: Zone, changes: seq<seq<Change>>, pending: seq<nat>, n: nat)
    requires Groups(changes) && Pending(changes, pending) && n < |pending|
    ensures changes[pending[n]][0].key in Refused(z, Sent(Joined(changes, pending))) <==> RefusedAlone(z, changes[pending[n]])
  {
    JoinedBatch(changes, pending);
    SentMeans(z, Joined(changes, pending), changes[pending[n]][0].key);
    BlockedJoined(z, changes, pending, n);
    JoinedWrites(changes, pending, n);
  }

  lemma JoinedWrites(changes: seq<seq<Change>>, pending: seq<nat>, n: nat)
    requires Groups(changes) && Pending(changes, pending) && n < |pending|
    ensures Writes(Joined(changes, pending), changes[pending[n]][0].key)
  {
    var g := changes[pending[n]];
    assert Group(g);
    FindIn(g, g[0]);
    JoinedFind(changes, pending, n, g[0].key);
  }

  lemma RefusedIsReplace(z: Zone, changes: seq<seq<Change>>, pending: seq<nat>, k: Key) returns (n: nat)
    requires Groups(changes) && Pending(changes, pending) && k in Refused(z, Sent(Joined(changes, pending)))
    ensures n < |pending| && changes[pending[n]][0].key == k
  {
    var batch := Joined(changes, pending);
    JoinedBatch(changes, pending);
    SentMeans(z, batch, k);
    FindMember(batch, k);
    n := JoinedMemberOf(changes, pending, Find(batch, k).value);
    assert Group(changes[pending[n]]);
  }

  lemma BatchEffectAt(z: Zone, changes: seq<seq<Change>>, pending: seq<nat>, k: Key)
    requires Groups(changes) && Pending(changes, pending)
    requires forall i :: 0 <= i < |changes| ==> (i in pending <==> !RefusedAlone(z, changes[i]))
    ensures At(Effects(z, Sent(Joined(changes, pending))), k) == At(OneAtATime(z, changes), k)
  {
    JoinedBatch(changes, pending);
    SentMeans(z, Joined(changes, pending), k);
    if i :| 0 <= i < |changes| && changes[i][0].key.name == k.name {
      OneAtATimeAt(z, changes, i, k);
      if i in pending {
        var n :| 0 <= n < |pending| && pending[n] == i;
        JoinedFind(changes, pending, n, k);
      } else {
        assert forall n :: 0 <= n < |pending| ==> pending[n] != i && pending[n] in pending;
        JoinedFindNone(changes, pending, k);
      }
    } else {
      OneAtATimeElsewhere(z, changes, k);
      JoinedFindNone(changes, pending, k);
    }
  }

  /** Sending together all that is not refused has the effect of sending every change by itself. */
  lemma BatchEqualsOneAtATime(z: Zone, changes: seq<seq<Change>>, pending: seq<nat>)
    requires Groups(changes) && Pending(changes, pending) && Normal(z)
    requires forall i :: 0 <= i < |changes| ==> (i in pending <==> !RefusedAlone(z, changes[i]))
    ensures Effects(z, Sent(Joined(changes, pending))) == OneAtATime(z, changes)
  {
    JoinedBatch(changes, pending);
    SentMeans(z, Joined(changes, pending), Key("", ""));
    OneAtATimeNormal(z, changes);
    forall k ensures At(Effects(z, Sent(Joined(changes, pending))), k) == At(OneAtATime(z, changes), k) {
      BatchEffectAt(z, changes, pending, k);
    }
    SameZone(Effects(z, Sent(Joined(changes, pending))), OneAtATime(z, changes));
  }

  // ----- the loop -----------------------------------------------------------

  predicate RefusedIn(change: seq<Change>, named: set<Key>) {
    exists c | c in change :: c.key in named
  }

  /** The pending changes that no refusal named. */
  function KeptOf(changes: seq<seq<Change>>, pending: seq<nat>, named: set<Key>): (kept: seq<nat>)
    requires forall i :: 0 <= i < |pending| ==> pending[i] < |changes|
    ensures |kept| <= |pending|
  {
    if pending == [] then []
    else
      var last := pending[|pending| - 1];
      KeptOf(changes, pending[..|pending| - 1], named) + if RefusedIn(changes[last], named) then [] else [last]
  }

  lemma {:induction false} KeptMember(changes: seq<seq<Change>>, pending: seq<nat>, named: set<Key>, i: nat)
    requires forall n :: 0 <= n < |pending| ==> pending[n] < |changes|
    ensures i in pending ==> i < |changes|
    ensures i in KeptOf(changes, pending, named) <==> i in pending && !RefusedIn(changes[i], named)
  {
    if pending != [] {
      var before, last := pending[..|pending| - 1], pending[|pending| - 1];
      KeptMember(changes, before, named, i);
      assert pending == before + [last];
    }
  }

  lemma {:induction false} KeptPending(changes: seq<seq<Change>>, pending: seq<nat>, named: set<Key>)
    requires Pending(changes, pending)
    ensures Pending(changes, KeptOf(changes, pending, named))
  {
    if pending != [] {
      var before := pending[..|pending| - 1];
      KeptPending(changes, before, named);
      var kept := KeptOf(changes, before, named);
      forall i | 0 <= i < |kept| ensures kept[i] < pending[|pending| - 1] {
        KeptMember(changes, before, named, kept[i]);
        assert kept[i] in before;
        var j :| 0 <= j < |before| && before[j] == kept[i];
      }
    }
  }

  lemma {:induction false} KeptFewer(changes: seq<seq<Change>>, pending: seq<nat>, named: set<Key>, n: nat)
    requires Pending(changes, pending) && n < |pending| && RefusedIn(changes[pending[n]], named)
    ensures |KeptOf(changes, pending, named)| < |pending|
  {
    if n < |pending| - 1 {
      KeptFewer(changes, pending[..|pending| - 1], named, n);
    }
  }

  /**
   * The zones the loop may leave when every answer is honest: it stops at the
   * first answer that is no refusal, and goes on with what a refusal does not name.
   */
  ghost predicate MayEnd(z: Zone, changes: seq<seq<Change>>, pending: seq<nat>, after: Zone)
    requires forall i :: 0 <= i < |pending| ==> pending[i] < |changes|
    decreases |pending|
  {
    if pending == [] then after == z
    else exists outcome, a :: Honest(z, Sent(Joined(changes, pending)), outcome, a) && Follows(z, changes, pending, outcome, a, after)
  }

  ghost predicate Follows(z: Zone, changes: seq<seq<Change>>, pending: seq<nat>, outcome: Outcome, a: Zone, after: Zone)
    requires forall i :: 0 <= i < |pending| ==> pending[i] < |changes|
    decreases |pending|, 0
  {
    if !outcome.Refusal? then after == a
    else
      var kept := KeptOf(changes, pending, outcome.named);
      && |kept| < |pending| && (forall i :: 0 <= i < |kept| ==> kept[i] < |changes|)
      && MayEnd(z, changes, kept, after)
  }

  lemma EndsHere(z: Zone, changes: seq<seq<Change>>, pending: seq<nat>, outcome: Outcome, after: Zone)
    requires (forall i :: 0 <= i < |pending| ==> pending[i] < |changes|) && pending != [] && !outcome.Refusal?
    requires Honest(z, Sent(Joined(changes, pending)), outcome, after)
    ensures MayEnd(z, changes, pending, after)
  {
    assert Follows(z, changes, pending, outcome, after, after);
  }

  lemma GoesOn(z: Zone, changes: seq<seq<Change>>, pending: seq<nat>, outcome: Outcome, after: Zone)
    requires Pending(changes, pending) && pending != [] && outcome.Refusal?
    requires Honest(z, Sent(Joined(changes, pending)), outcome, z)
    requires var kept := KeptOf(changes, pending, outcome.named);
             |kept| < |pending| && Pending(changes, kept) && MayEnd(z, changes, kept, after)
    ensures MayEnd(z, changes, pending, after)
  {
    assert Follows(z, changes, pending, outcome, z, after);
  }

  method DropRefused(changes: seq<seq<Change>>, pending: seq<nat>, named: set<Key>, before: seq<Option<Outcome>>, err: Outcome)
    returns (kept: seq<nat>, errs: seq<Option<Outcome>>)
    requires Pending(changes, pending) && |before| == |changes|
    ensures kept == KeptOf(changes, pending, named)
    ensures |errs| == |changes|
    ensures forall i :: 0 <= i < |errs| ==>
              errs[i] == if i in pending && RefusedIn(changes[i], named) then Some(err) else before[i]
  {
    errs := before;
    kept := [];
    for n := 0 to |pending|
      invariant kept == KeptOf(changes, pending[..n], named)
      invariant |errs| == |changes|
      invariant forall i :: 0 <= i < |errs| ==>
                  errs[i] == if i in pending[..n] && RefusedIn(changes[i], named) then Some(err) else before[i]
    {
      assert pending[..n + 1][..n] == pending[..n];
      if RefusedIn(changes[pending[n]], named) {
        errs := errs[pending[n] := Some(err)];
      } else {
        kept := kept + [pending[n]];
      }
    }
    assert pending[..|pending|] == pending;
  }

  /** A refusal names changes of the batch that would be refused alone. */
  lemma RefusedInAlone(z: Zone, changes: seq<seq<Change>>, pending: seq<nat>, named: set<Key>, n: nat)
    requires Groups(changes) && Pending(changes, pending) && n < |pending|
    requires named <= Refused(z, Sent(Joined(changes, pending))) && RefusedIn(changes[pending[n]], named)
    ensures RefusedAlone(z, changes[pending[n]]) && changes[pending[n]][0].key in named
  {
    var g := changes[pending[n]];
    var c :| c in g && c.key in named;
    var m := RefusedIsReplace(z, changes, pending, c.key);
    assert Group(g);
    assert pending[m] == pending[n];
    BatchRefuses(z, changes, pending, n);
  }

  /** Every refusal drops somebody. */
  lemma SomebodyDropped(z: Zone, changes: seq<seq<Change>>, pending: seq<nat>, named: set<Key>)
    requires Groups(changes) && Pending(changes, pending) && named != {}
    requires named <= Refused(z, Sent(Joined(changes, pending)))
    ensures |KeptOf(changes, pending, named)| < |pending|
  {
    var k :| k in named;
    var n := RefusedIsReplace(z, changes, pending, k);
    assert changes[pending[n]][0] in changes[pending[n]];
    KeptFewer(changes, pending, named, n);
  }

  // ----- what the caller is left with ---------------------------------------

  /** Every RRset at the name of `g` is as it was. */
  ghost predicate Kept(z: Zone, g: seq<Change>, after: Zone)
    requires g != []
  {
    AgreeAt(z, after, g[0].key.name)
  }

  /** Every RRset at the name of `g` is as `g` says. */
  ghost predicate Carried(z: Zone, g: seq<Change>, after: Zone)
    requires g != []
  {
    forall k: Key :: k.name == g[0].key.name ==> At(after, k) == Meant(At(z, k), Find(g, k))
  }

  /** A change lands whole or not at all, and a refusal is one it would meet alone. */
  ghost predicate Settled(z: Zone, g: seq<Change>, err: Option<Outcome>, after: Zone)
    requires g != []
  {
    match err
    case None => Carried(z, g, after) && !RefusedAlone(z, g)
    case Some(Refusal(named)) => Kept(z, g, after) && RefusedAlone(z, g) && g[0].key in named
    case Some(_) => Kept(z, g, after) || Carried(z, g, after)
  }

  /** Names that no change is at stay as they are. */
  ghost predicate ElsewhereKept(z: Zone, changes: seq<seq<Change>>, after: Zone)
    requires Groups(changes)
  {
    forall k: Key :: (forall i :: 0 <= i < |changes| ==> changes[i][0].key.name != k.name) ==> At(after, k) == At(z, k)
  }

  lemma JoinedEffects(z: Zone, changes: seq<seq<Change>>, pending: seq<nat>, i: nat)
    requires Groups(changes) && Pending(changes, pending) && i < |changes|
    ensures var after := Effects(z, Sent(Joined(changes, pending)));
            if i in pending then Carried(z, changes[i], after) else Kept(z, changes[i], after)
  {
    var after := Effects(z, Sent(Joined(changes, pending)));
    JoinedBatch(changes, pending);
    forall k: Key | k.name == changes[i][0].key.name
      ensures At(after, k) == if i in pending then Meant(At(z, k), Find(changes[i], k)) else At(z, k)
    {
      SentMeans(z, Joined(changes, pending), k);
      if i in pending {
        var n :| 0 <= n < |pending| && pending[n] == i;
        JoinedFind(changes, pending, n, k);
      } else {
        assert forall n :: 0 <= n < |pending| ==> pending[n] in pending;
        JoinedFindNone(changes, pending, k);
      }
    }
  }

  lemma JoinedElsewhere(z: Zone, changes: seq<seq<Change>>, pending: seq<nat>)
    requires Groups(changes) && Pending(changes, pending)
    ensures ElsewhereKept(z, changes, Effects(z, Sent(Joined(changes, pending))))
    ensures Normal(z) ==> Normal(Effects(z, Sent(Joined(changes, pending))))
  {
    JoinedBatch(changes, pending);
    SentMeans(z, Joined(changes, pending), Key("", ""));
    forall k: Key | forall i :: 0 <= i < |changes| ==> changes[i][0].key.name != k.name
      ensures At(Effects(z, Sent(Joined(changes, pending))), k) == At(z, k)
    {
      SentMeans(z, Joined(changes, pending), k);
      JoinedFindNone(changes, pending, k);
    }
  }

  /** Where the loop stands: the zone untouched, everything dropped so far refused by itself. */
  ghost predicate Isolating(z: Zone, changes: seq<seq<Change>>, pending: seq<nat>, errs: seq<Option<Outcome>>)
    requires Groups(changes)
  {
    && Pending(changes, pending) && |errs| == |changes|
    && forall i :: 0 <= i < |changes| ==>
         if i in pending then errs[i] == None
         else errs[i].Some? && errs[i].value.Refusal? && RefusedAlone(z, changes[i]) && changes[i][0].key in errs[i].value.named
  }

  lemma DropStep(z: Zone, changes: seq<seq<Change>>, pending: seq<nat>, errs: seq<Option<Outcome>>, named: set<Key>, after: seq<Option<Outcome>>)
    requires Groups(changes) && Isolating(z, changes, pending, errs) && named <= Refused(z, Sent(Joined(changes, pending)))
    requires |after| == |changes|
    requires forall i :: 0 <= i < |after| ==>
               after[i] == if i in pending && RefusedIn(changes[i], named) then Some(Refusal(named)) else errs[i]
    ensures Isolating(z, changes, KeptOf(changes, pending, named), after)
  {
    KeptPending(changes, pending, named);
    forall i | 0 <= i < |changes| ensures i in KeptOf(changes, pending, named) <==> i in pending && !RefusedIn(changes[i], named) {
      KeptMember(changes, pending, named, i);
    }
    forall i | 0 <= i < |changes| && i in pending && RefusedIn(changes[i], named)
      ensures RefusedAlone(z, changes[i]) && changes[i][0].key in named
    {
      var n :| 0 <= n < |pending| && pending[n] == i;
      RefusedInAlone(z, changes, pending, named, n);
    }
  }

  lemma AllPendingAccepted(z: Zone, changes: seq<seq<Change>>, pending: seq<nat>, i: nat)
    requires Groups(changes) && Pending(changes, pending) && i in pending
    requires Refused(z, Sent(Joined(changes, pending))) == {}
    ensures !RefusedAlone(z, changes[i])
  {
    var n :| 0 <= n < |pending| && pending[n] == i;
    BatchRefuses(z, changes, pending, n);
  }

  lemma AppliedSettles(z: Zone, changes: seq<seq<Change>>, pending: seq<nat>, errs: seq<Option<Outcome>>, after: Zone)
    requires Groups(changes) && Isolating(z, changes, pending, errs) && Normal(z)
    requires Refused(z, Sent(Joined(changes, pending))) == {} && after == Effects(z, Sent(Joined(changes, pending)))
    ensures forall i :: 0 <= i < |changes| ==> Settled(z, changes[i], errs[i], after)
    ensures after == OneAtATime(z, changes)
  {
    forall i | 0 <= i < |changes| ensures Settled(z, changes[i], errs[i], after) {
      JoinedEffects(z, changes, pending, i);
      if i in pending { AllPendingAccepted(z, changes, pending, i); }
    }
    forall i | 0 <= i < |changes| ensures i in pending <==> !RefusedAlone(z, changes[i]) {
      if i in pending { AllPendingAccepted(z, changes, pending, i); }
    }
    BatchEqualsOneAtATime(z, changes, pending);
  }

  lemma FailedSettles(z: Zone, changes: seq<seq<Change>>, pending: seq<nat>, errs: seq<Option<Outcome>>, after: Zone, i: nat)
    requires Groups(changes) && Isolating(z, changes, pending, errs) && i < |changes|
    requires after == z || after == Effects(z, Sent(Joined(changes, pending)))
    ensures Settled(z, changes[i], if i in pending then Some(Failed) else errs[i], after)
  {
    if after != z { JoinedEffects(z, changes, pending, i); }
  }

  lemma NonePending(z: Zone, changes: seq<seq<Change>>, errs: seq<Option<Outcome>>)
    requires Groups(changes) && Isolating(z, changes, [], errs) && Normal(z)
    ensures forall i :: 0 <= i < |changes| ==> Settled(z, changes[i], errs[i], z)
    ensures z == OneAtATime(z, changes)
  {
    forall k ensures At(z, k) == At(OneAtATime(z, changes), k) {
      BatchEffectAt(z, changes, [], k);
      SentMeans(z, [], k);
    }
    OneAtATimeNormal(z, changes);
    SameZone(z, OneAtATime(z, changes));
  }

  /** Every change is settled, nothing else is touched, and without a failure it is as if each had been sent alone. */
  ghost predicate Done(z: Zone, changes: seq<seq<Change>>, errs: seq<Option<Outcome>>, after: Zone)
    requires Groups(changes)
  {
    && |errs| == |changes| && Normal(after)
    && (forall i :: 0 <= i < |changes| ==> Settled(z, changes[i], errs[i], after))
    && ElsewhereKept(z, changes, after)
    && ((forall i :: 0 <= i < |changes| ==> errs[i] != Some(Failed)) ==> after == OneAtATime(z, changes))
  }

  lemma AppliedDone(z: Zone, changes: seq<seq<Change>>, pending: seq<nat>, errs: seq<Option<Outcome>>, after: Zone)
    requires Groups(changes) && Isolating(z, changes, pending, errs) && Normal(z)
    requires Answers(z, Sent(Joined(changes, pending)), Applied, after)
    ensures Done(z, changes, errs, after)
  {
    JoinedElsewhere(z, changes, pending);
    AppliedSettles(z, changes, pending, errs, after);
  }

  function FailAll(pending: seq<nat>, errs: seq<Option<Outcome>>, err: Outcome): (r: seq<Option<Outcome>>)
    ensures |r| == |errs|
  {
    seq(|errs|, i requires 0 <= i < |errs| => if i in pending then Some(err) else errs[i])
  }

  lemma FailedDone(z: Zone, changes: seq<seq<Change>>, pending: seq<nat>, errs: seq<Option<Outcome>>, err: Outcome, after: Zone)
    requires Groups(changes) && Isolating(z, changes, pending, errs) && Normal(z) && pending != []
    requires err.Failed? && Answers(z, Sent(Joined(changes, pending)), err, after)
    ensures Done(z, changes, FailAll(pending, errs, err), after)
  {
    var failed := FailAll(pending, errs, err);
    JoinedElsewhere(z, changes, pending);
    forall i | 0 <= i < |changes| ensures Settled(z, changes[i], failed[i], after) {
      FailedSettles(z, changes, pending, errs, after, i);
    }
    assert pending[0] in pending && failed[pending[0]] == Some(Failed);
  }

  lemma NoneDone(z: Zone, changes: seq<seq<Change>>, errs: seq<Option<Outcome>>)
    requires Groups(changes) && Isolating(z, changes, [], errs) && Normal(z)
    ensures Done(z, changes, errs, z)
  {
    NonePending(z, changes, errs);
  }

  lemma StartIsolating(z: Zone, changes: seq<seq<Change>>, pending: seq<nat>, errs: seq<Option<Outcome>>)
    requires Groups(changes) && |pending| == |errs| == |changes|
    requires forall i :: 0 <= i < |changes| ==> pending[i] == i && errs[i] == None
    ensures Isolating(z, changes, pending, errs)
  {
    forall i | 0 <= i < |changes| ensures i in pending { assert pending[i] == i; }
  }

  /** A failure names nobody, so nobody is dropped. */
  lemma {:induction false} KeptAll(changes: seq<seq<Change>>, pending: seq<nat>)
    requires Pending(changes, pending)
    ensures KeptOf(changes, pending, {}) == pending
  {
    if pending != [] {
      var before, last := pending[..|pending| - 1], pending[|pending| - 1];
      assert Pending(changes, before);
      KeptAll(changes, before);
      assert KeptOf(changes, pending, {}) == before + [last];
    }
  }

  function Everything(changes: seq<seq<Change>>): (all: seq<nat>)
    ensures |all| == |changes| && forall i :: 0 <= i < |all| ==> all[i] == i
  {
    seq(|changes|, i => i)
  }

  /** Whatever may still come of `pending` may come of the whole. */
  ghost predicate OnCourse(z: Zone, changes: seq<seq<Change>>, pending: seq<nat>)
    requires Pending(changes, pending)
  {
    forall after :: MayEnd(z, changes, pending, after) ==> MayEnd(z, changes, Everything(changes), after)
  }

  lemma StaysOnCourse(z: Zone, changes: seq<seq<Change>>, pending: seq<nat>, named: set<Key>)
    requires Groups(changes) && Pending(changes, pending) && pending != [] && OnCourse(z, changes, pending)
    requires Honest(z, Sent(Joined(changes, pending)), Refusal(named), z)
    requires |KeptOf(changes, pending, named)| < |pending| && Pending(changes, KeptOf(changes, pending, named))
    ensures OnCourse(z, changes, KeptOf(changes, pending, named))
  {
    forall after | MayEnd(z, changes, KeptOf(changes, pending, named), after)
      ensures MayEnd(z, changes, Everything(changes), after)
    {
      GoesOn(z, changes, pending, Refusal(named), after);
    }
  }

  method ApplyIsolatingRefusals(server: Server, changes: seq<seq<Change>>) returns (errs: seq<Option<Outcome>>)
    requires Groups(changes) && Normal(server.zone)
    modifies server
    ensures Done(old(server.zone), changes, errs, server.zone)
    ensures changes == [] ==> server.patches == old(server.patches)
    ensures server.faults >= old(server.faults)
    ensures server.faults == old(server.faults) ==> MayEnd(old(server.zone), changes, Everything(changes), server.zone)
  {
    ghost var z, faults := server.zone, server.faults;
    errs := seq(|changes|, _ => None);
    var pending := Everything(changes);
    StartIsolating(z, changes, pending, errs);
    while pending != []
      invariant server.zone == z && Isolating(z, changes, pending, errs)
      invariant server.faults >= faults && (server.faults == faults ==> OnCourse(z, changes, pending))
      invariant changes == [] ==> pending == [] && server.patches == old(server.patches)
      decreases |pending|
    {
      var outcome := server.Patch(Sent(Joined(changes, pending)));
      if server.faults == faults && !outcome.Refusal? {
        EndsHere(z, changes, pending, outcome, server.zone);
      }
      if outcome.Applied? {
        AppliedDone(z, changes, pending, errs, server.zone);
        return;
      }
      var named := if outcome.Refusal? then outcome.named else {};
      var kept, dropped := DropRefused(changes, pending, named, errs, outcome);
      if outcome.Refusal? {
        SomebodyDropped(z, changes, pending, named);
        DropStep(z, changes, pending, errs, named, dropped);
        if server.faults == faults { StaysOnCourse(z, changes, pending, named); }
      } else {
        KeptAll(changes, pending);
        FailedDone(z, changes, pending, errs, outcome, server.zone);
      }
      if |kept| == |pending| {
        return FailAll(pending, errs, outcome);
      }
      pending, errs := kept, dropped;
    }
    NoneDone(z, changes, errs);
  }
}
