/** Reserving before staging: no two passes ever write artifacts under one name. */
module RunStaging {
  import opened Text
  import opened Publication
  import opened Runs
  import opened RunProofs

  /** No artifact lies beyond the reserved revisions. */
  ghost predicate ArtifactsReserved(s: System) {
    && (forall c :: c in s.store.chunks ==> s.store.owner.Some? && c.id.revision < s.store.owner.value.next)
    && (forall m :: m in s.store.manifests ==> s.store.owner.Some? && m.revision < s.store.owner.value.next)
  }

  ghost predicate Exclusive(s: System) {
    forall t, u :: t != u && HasReserved(At(s, t)) && HasReserved(At(s, u)) ==> At(s, t).revision != At(s, u).revision
  }

  /** Under the name of a reservation there is only what its own pass has staged. */
  ghost predicate OnlyOwn(s: System, p: Pass) {
    p.Reserved? ==>
      && (forall c :: c in s.store.chunks && c.id == Id(p.own.epoch, p.revision) ==> c.index < p.staged)
      && Id(p.own.epoch, p.revision) !in s.store.manifests
  }

  ghost predicate Staging(w: World, s: System) {
    Protocol(w, s) && ArtifactsReserved(s) && Exclusive(s) && forall t :: OnlyOwn(s, At(s, t))
  }

  /** No new artifacts appear except under `id`. */
  ghost predicate NoNewArtifacts(s: System, after: System, id: Option<Id>) {
    && (forall c :: c in after.store.chunks && Some(c.id) != id ==> c in s.store.chunks)
    && (forall m :: m in after.store.manifests && Some(m) != id ==> m in s.store.manifests)
  }

  /** Passes keep their reservations or drop them. */
  ghost predicate NoNewReservations(s: System, after: System) {
    forall u :: HasReserved(At(after, u)) ==>
      && HasReserved(At(s, u)) && At(after, u).revision == At(s, u).revision && At(after, u).own == At(s, u).own
      && (At(after, u).Reserved? ==> At(s, u).Reserved? && At(after, u).staged >= At(s, u).staged)
  }

  ghost predicate NextGrows(s: System, after: System) {
    s.store.owner.Some? ==> after.store.owner.Some? && after.store.owner.value.next >= s.store.owner.value.next
  }

  /** A step that stages and reserves nothing. */
  ghost predicate Plain(s: System, after: System) {
    NoNewArtifacts(s, after, None) && NextGrows(s, after) && NoNewReservations(s, after)
  }

  lemma PlainLease(w: World, s: System, step: Step)
    requires (step.Take? || step.Release? || step.Renew?) && CopyHolds(s.store, At(s, step.pass))
    ensures Plain(s, Next(w, s, step))
  {
  }

  lemma PlainCommit(w: World, s: System, step: Step)
    requires step.Commit? && CopyHolds(s.store, At(s, step.pass))
    ensures Plain(s, Next(w, s, step))
  {
  }

  lemma PlainWrite(w: World, s: System, step: Step)
    requires Protocol(w, s) && (step.Take? || step.Release? || step.Renew? || step.Commit?)
    ensures Plain(s, Next(w, s, step))
  {
    assert CopyHolds(s.store, At(s, step.pass));
    if step.Commit? { PlainCommit(w, s, step); } else { PlainLease(w, s, step); }
  }

  lemma PlainOutside(w: World, s: System, step: Step)
    requires (step.Create? || step.Acknowledge? || step.CollectChunk? || step.CollectManifest? || step.CollectOutbox?)
    ensures Plain(s, Next(w, s, step))
  {
  }

  lemma PlainRest(w: World, s: System, step: Step)
    requires (step.Get? || step.Keep? || step.Compile? || step.StageOutbox? || step.Crash?)
    ensures Plain(s, Next(w, s, step))
  {
  }

  lemma PlainStep(w: World, s: System, step: Step)
    requires Protocol(w, s) && !step.Reserve? && !step.StageChunk? && !step.StageManifest?
    ensures Plain(s, Next(w, s, step))
  {
    if step.Take? || step.Release? || step.Renew? || step.Commit? {
      PlainWrite(w, s, step);
    } else if step.Get? || step.Keep? || step.Compile? || step.StageOutbox? || step.Crash? {
      PlainRest(w, s, step);
    } else {
      PlainOutside(w, s, step);
    }
  }

  lemma PlainKeeps(w: World, s: System, after: System)
    requires Staging(w, s) && Protocol(w, after) && Plain(s, after)
    ensures Staging(w, after)
  {
    forall u ensures OnlyOwn(after, At(after, u)) { assert OnlyOwn(s, At(s, u)); }
  }

  lemma ReserveStaging(w: World, s: System, step: Step)
    requires Staging(w, s) && step.Reserve? && Protocol(w, Next(w, s, step))
    ensures Staging(w, Next(w, s, step))
  {
    var after, t := Next(w, s, step), step.pass;
    assert after.store.chunks == s.store.chunks && after.store.manifests == s.store.manifests;
    ReserveShape(w, s, step);
    assert CopyHolds(s.store, At(s, t));
    forall u ensures OnlyOwn(after, At(after, u)) {
      assert OnlyOwn(s, At(s, u)) && CopyHolds(s.store, At(s, u));
      assert u != t ==> At(after, u) == At(s, u);
    }
    ReserveExclusive(w, s, step);
  }

  lemma ReserveExclusive(w: World, s: System, step: Step)
    requires Protocol(w, s) && Exclusive(s) && step.Reserve?
    ensures Exclusive(Next(w, s, step))
  {
    var after, t := Next(w, s, step), step.pass;
    ReserveShape(w, s, step);
    assert CopyHolds(s.store, At(s, t));
    forall u, v | u != v && HasReserved(At(after, u)) && HasReserved(At(after, v))
      ensures At(after, u).revision != At(after, v).revision
    {
      assert CopyHolds(s.store, At(s, u)) && CopyHolds(s.store, At(s, v));
      assert u != t ==> At(after, u) == At(s, u);
      assert v != t ==> At(after, v) == At(s, v);
    }
  }

  /** A step of pass `t` that stages something under its own name. */
  ghost predicate Stages(s: System, after: System, t: nat) {
    && HasReserved(At(s, t))
    && NoNewArtifacts(s, after, Some(Id(At(s, t).own.epoch, At(s, t).revision)))
    && OthersKept(s, after, t) && after.store.owner == s.store.owner
    && (HasReserved(At(after, t)) ==> At(after, t).revision == At(s, t).revision && At(after, t).own == At(s, t).own)
  }

  lemma StagesKeep(w: World, s: System, after: System, t: nat)
    requires Staging(w, s) && Protocol(w, after) && Stages(s, after, t) && OnlyOwn(after, At(after, t))
    ensures Staging(w, after)
  {
    assert CopyHolds(s.store, At(s, t));
    forall u ensures OnlyOwn(after, At(after, u)) {
      assert OnlyOwn(s, At(s, u));
      if u != t {
        assert At(after, u) == At(s, u);
        assert HasReserved(At(s, u)) ==> At(s, u).revision != At(s, t).revision;
      }
    }
    forall u, v | u != v && HasReserved(At(after, u)) && HasReserved(At(after, v))
      ensures At(after, u).revision != At(after, v).revision
    {
      assert u != t ==> At(after, u) == At(s, u);
      assert v != t ==> At(after, v) == At(s, v);
    }
  }

  lemma ChunkStages(w: World, s: System, step: Step)
    requires Staging(w, s) && step.StageChunk?
    ensures Next(w, s, step) == s || (Stages(s, Next(w, s, step), step.pass) && OnlyOwn(Next(w, s, step), At(Next(w, s, step), step.pass)))
  {
    assert OnlyOwn(s, At(s, step.pass));
  }

  lemma ManifestStages(w: World, s: System, step: Step)
    requires Staging(w, s) && step.StageManifest?
    ensures Next(w, s, step) == s || (Stages(s, Next(w, s, step), step.pass) && OnlyOwn(Next(w, s, step), At(Next(w, s, step), step.pass)))
  {
    assert OnlyOwn(s, At(s, step.pass));
  }

  lemma StagingNext(w: World, s: System, step: Step)
    requires Staging(w, s)
    ensures Staging(w, Next(w, s, step))
  {
    var after := Next(w, s, step);
    ProtocolNext(w, s, step);
    if step.Reserve? {
      ReserveStaging(w, s, step);
    } else if step.StageChunk? {
      ChunkStages(w, s, step);
      if after != s { StagesKeep(w, s, after, step.pass); }
    } else if step.StageManifest? {
      ManifestStages(w, s, step);
      if after != s { StagesKeep(w, s, after, step.pass); }
    } else {
      PlainStep(w, s, step);
      PlainKeeps(w, s, after);
    }
  }

  lemma {:induction false} RunsKeepStaging(w: World, steps: seq<Step>)
    ensures Staging(w, After(w, steps))
  {
    if steps != [] {
      RunsKeepStaging(w, steps[..|steps| - 1]);
      StagingNext(w, After(w, steps[..|steps| - 1]), steps[|steps| - 1]);
    }
  }

  lemma ChunkGoesOn(w: World, s: System, t: nat)
    requires OnlyOwn(s, At(s, t)) && At(s, t).Reserved? && At(s, t).staged < |Parts(w, At(s, t).draft)|
    ensures At(Next(w, s, StageChunk(t)), t) == At(s, t).(staged := At(s, t).staged + 1)
  {
  }

  lemma ManifestGoesOn(w: World, s: System, t: nat)
    requires OnlyOwn(s, At(s, t)) && At(s, t).Reserved? && At(s, t).staged == |Parts(w, At(s, t).draft)|
    ensures At(Next(w, s, StageManifest(t)), t).Staged?
  {
  }

  /**
   * Staging under a reserved name never meets somebody else's artifact: the
   * immutable create succeeds however stale the pass's copy is.
   */
  lemma StagingNeverConflicts(w: World, steps: seq<Step>, t: nat)
    ensures var s := After(w, steps);
            var p := At(s, t);
            && (p.Reserved? && p.staged < |Parts(w, p.draft)| ==> At(Next(w, s, StageChunk(t)), t) == p.(staged := p.staged + 1))
            && (p.Reserved? && p.staged == |Parts(w, p.draft)| ==> At(Next(w, s, StageManifest(t)), t).Staged?)
  {
    RunsKeepStaging(w, steps);
    var s := After(w, steps);
    assert OnlyOwn(s, At(s, t));
    if At(s, t).Reserved? {
      if At(s, t).staged < |Parts(w, At(s, t).draft)| { ChunkGoesOn(w, s, t); }
      if At(s, t).staged == |Parts(w, At(s, t).draft)| { ManifestGoesOn(w, s, t); }
    }
  }

  /** A takeover changes the record only when its lease has run out on the taker's clock. */
  lemma TakeoverAfterExpiry(w: World, steps: seq<Step>, t: nat, identity: string, now: int)
    ensures var s := After(w, steps);
            var after := Next(w, s, Take(t, identity, now));
            after.store.owner != s.store.owner ==>
              && s.store.owner.Some? && after.store.owner.Some?
              && s.store.owner.value.lease <= now && s.store.owner.value.holder != identity
              && after.store.owner.value.holder == identity && after.store.owner.value.epoch > s.store.owner.value.epoch
  {
    var s := After(w, steps);
    RunsKeepStaging(w, steps);
    assert CopyHolds(s.store, At(s, t));
  }

  /** Every write of the ownership record meets the record's validation rules. */
  lemma OwnershipRulesHold(w: World, steps: seq<Step>, step: Step)
    ensures var s := After(w, steps);
            s.store.owner.Some? ==>
              && Next(w, s, step).store.owner.Some?
              && TransitionAllowed(s.store.owner.value, Next(w, s, step).store.owner.value)
  {
    var s := After(w, steps);
    RunsKeepStaging(w, steps);
    if step.Take? || step.Release? || step.Renew? || step.Commit? || step.Reserve? {
      assert CopyHolds(s.store, At(s, step.pass));
      if s.store.owner.Some? { WriteRules(w, s, step); }
    } else {
      RecordKept(w, s, step);
    }
  }

  lemma WriteRules(w: World, s: System, step: Step)
    requires (step.Take? || step.Release? || step.Renew? || step.Commit? || step.Reserve?)
    requires CopyHolds(s.store, At(s, step.pass)) && s.store.owner.Some?
    ensures Next(w, s, step).store.owner.Some? && TransitionAllowed(s.store.owner.value, Next(w, s, step).store.owner.value)
  {
  }

  lemma RecordKept(w: World, s: System, step: Step)
    requires !step.Take? && !step.Release? && !step.Renew? && !step.Commit? && !step.Reserve?
    ensures s.store.owner.Some? ==> Next(w, s, step).store.owner == s.store.owner
  {
  }
}
