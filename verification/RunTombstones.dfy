/** What a run keeps about copies of the record, committed manifests and the targets of a withdrawal. */
module RunTombstones {
  import opened Text
  import opened Sources
  import opened Publication
  import opened Runs
  import opened RunProofs
  import opened RunContent
  import opened RunStaging
  import opened RunWithdrawals

  predicate Committed(log: seq<Commitment>, id: Id) {
    exists i | 0 <= i < |log| :: log[i].id == id
  }

  /** A copy of the record, however old, names only what was committed. */
  ghost predicate Known(s: System, p: Pass) {
    !p.Idle? && p.own.active.Some? ==> Committed(s.log, p.own.active.value)
  }

  /** A revision still being staged is nobody's commit. */
  ghost predicate Unused(s: System, p: Pass) {
    HasReserved(p) ==> forall i :: 0 <= i < |s.log| ==> s.log[i].id.revision != p.revision
  }

  /** A committed manifest stays what was committed for as long as it is stored. */
  ghost predicate ManifestsKept(s: System) {
    forall i :: 0 <= i < |s.log| && s.log[i].id in s.store.manifests ==> s.store.manifests[s.log[i].id] == s.log[i].manifest
  }

  ghost predicate AllLocal(w: World, targets: set<Target>) {
    forall v :: v in targets ==> Local(w, v)
  }

  /**
   * While nobody else has written the record, a draft serves local shards, and
   * a withdrawal those of the last commit.
   */
  ghost predicate Aimed(w: World, s: System, p: Pass) {
    HasDraft(p) && p.version == s.store.version ==>
      && AllLocal(w, p.draft.serving)
      && (p.draft.tombstone && w.regional ==>
            s.log != [] && p.draft.serving == ServingOf(w, s.log[|s.log| - 1].manifest.serving))
  }

  predicate SentWithin(p: Pass) {
    p.Staged? ==> p.sent <= p.draft.serving + p.draft.withdrawn
  }

  ghost predicate Tidy(w: World, s: System) {
    && (forall t :: Known(s, At(s, t)))
    && (forall t :: SentWithin(At(s, t)))
    && (forall t :: Unused(s, At(s, t)))
    && (forall t :: Aimed(w, s, At(s, t)))
    && (forall i :: 0 <= i < |s.log| ==> AllLocal(w, s.log[i].manifest.serving))
    && ManifestsKept(s)
  }

  lemma CommittedMore(log: seq<Commitment>, c: Commitment, id: Id)
    requires Committed(log, id)
    ensures Committed(log + [c], id)
  {
    var i :| 0 <= i < |log| && log[i].id == id;
    assert (log + [c])[i].id == id;
  }

  // ----- copies and reservations --------------------------------------------

  lemma QuietKnown(w: World, s: System, after: System, t: nat, u: nat)
    requires Protocol(w, s) && Tidy(w, s) && Quiet(s, after, t)
    ensures Known(after, At(after, u)) && Unused(after, At(after, u))
  {
    assert Known(s, At(s, u)) && Unused(s, At(s, u));
    if u == t && At(after, t).Seen? && s.log != [] {
      assert s.log[|s.log| - 1].id == s.log[|s.log| - 1].id;
    }
  }

  lemma LeaseKnown(w: World, s: System, after: System, t: nat, own: Ownership, u: nat)
    requires Tidy(w, s) && WroteLease(s, after, t, own)
    ensures Known(after, At(after, u)) && Unused(after, At(after, u))
  {
    assert Known(s, At(s, u)) && Unused(s, At(s, u));
  }

  lemma ReservationKnown(w: World, s: System, after: System, t: nat, own: Ownership, u: nat)
    requires Protocol(w, s) && Tidy(w, s) && WroteReservation(s, after, t, own)
    ensures Known(after, At(after, u)) && Unused(after, At(after, u))
  {
    assert Known(s, At(s, u)) && Unused(s, At(s, u)) && CopyHolds(s.store, At(s, t));
  }

  lemma CommitKnown(w: World, s: System, after: System, t: nat, own: Ownership, u: nat)
    requires Staging(w, s) && Tidy(w, s) && WroteCommit(w, s, after, t, own)
    ensures Known(after, At(after, u)) && Unused(after, At(after, u))
  {
    assert Known(s, At(s, u)) && Unused(s, At(s, u));
    var p := At(s, u);
    if u != t {
      assert At(after, u) == p;
      if !p.Idle? && p.own.active.Some? {
        CommittedMore(s.log, after.log[|s.log|], p.own.active.value);
      }
      assert HasReserved(p) ==> p.revision != At(s, t).revision;
    }
  }

  /** Every step leaves the record alone, writes it in one of three ways, or creates it. */
  lemma StepShape(w: World, s: System, step: Step) returns (t: nat)
    ensures var after := Next(w, s, step);
            || Quiet(s, after, t) || Created(w, s, after)
            || (after.store.owner.Some? && WroteLease(s, after, t, after.store.owner.value))
            || (after.store.owner.Some? && WroteReservation(s, after, t, after.store.owner.value))
            || (after.store.owner.Some? && WroteCommit(w, s, after, t, after.store.owner.value))
  {
    if step.Create? { t := 0; }
    else if step.Take? || step.Release? || step.Renew? { t := step.pass; LeaseShape(w, s, step); }
    else if step.Reserve? { t := step.pass; ReserveShape(w, s, step); }
    else if step.Commit? { t := step.pass; CommitShape(w, s, step); }
    else if step.StageChunk? || step.StageManifest? || step.StageOutbox? { t := step.pass; StagingShape(w, s, step); }
    else if step.Get? || step.Keep? || step.Compile? || step.Crash? { t := step.pass; LocalShape(w, s, step); }
    else { t := 0; OutsideShape(w, s, step); }
  }

  lemma KnownNext(w: World, s: System, step: Step, u: nat)
    requires Staging(w, s) && Tidy(w, s)
    ensures var after := Next(w, s, step); Known(after, At(after, u)) && Unused(after, At(after, u))
  {
    var after := Next(w, s, step);
    var t := StepShape(w, s, step);
    assert Known(s, At(s, u)) && Unused(s, At(s, u));
    if Quiet(s, after, t) { QuietKnown(w, s, after, t, u); }
    else if !Created(w, s, after) {
      var own := after.store.owner.value;
      if WroteLease(s, after, t, own) { LeaseKnown(w, s, after, t, own, u); }
      else if WroteReservation(s, after, t, own) { ReservationKnown(w, s, after, t, own, u); }
      else { CommitKnown(w, s, after, t, own, u); }
    }
  }

  // ----- targets ------------------------------------------------------------

  lemma PreparedAim(w: World, store: Store, own: Ownership, input: Input, tombstone: bool, bound: set<Target>)
    requires Prepare(w, store, own, input, tombstone, bound).Some?
    ensures var d := Prepare(w, store, own, input, tombstone, bound).value;
            && AllLocal(w, d.serving) && d.tombstone == tombstone
            && (tombstone && w.regional ==>
                  own.active.Some? && (own.active.value in store.manifests ==>
                    d.serving == ServingOf(w, store.manifests[own.active.value].serving)))
  {
    if tombstone && own.active.Some? && own.active.value in store.manifests {
      var m := store.manifests[own.active.value];
      assert Desired(Some(m), bound, true) == m.serving;
    }
  }

  lemma CompileAims(w: World, s: System, step: Step)
    requires Content(w, s) && Tidy(w, s) && step.Compile?
    ensures Aimed(w, Next(w, s, step), At(Next(w, s, step), step.pass))
  {
    var p, after := At(s, step.pass), Next(w, s, step);
    assert Aimed(w, s, p) && CopyHolds(s.store, p);
    CompileShape(w, s, step);
    var q := At(after, step.pass);
    if p.Held? && q.Drafted? && q.version == s.store.version {
      PreparedAim(w, s.store, p.own, step.input, step.tombstone, step.bound);
      if s.log != [] { ActiveManifest(w, s); }
    }
  }

  lemma AimedNext(w: World, s: System, step: Step, u: nat)
    requires Content(w, s) && Tidy(w, s) && !step.Commit?
    ensures Aimed(w, Next(w, s, step), At(Next(w, s, step), u))
  {
    assert Aimed(w, s, At(s, u));
    if !step.Compile? {
      DraftKept(w, s, step, u);
    } else if u == step.pass {
      CompileAims(w, s, step);
    } else {
      OthersKeptByCompile(w, s, step, u);
    }
  }

  lemma CommitAims(w: World, s: System, step: Step, u: nat)
    requires Protocol(w, s) && Tidy(w, s) && step.Commit?
    ensures var after := Next(w, s, step);
            && Aimed(w, after, At(after, u))
            && (forall i :: 0 <= i < |after.log| ==> AllLocal(w, after.log[i].manifest.serving))
  {
    var after := Next(w, s, step);
    CommitShape(w, s, step);
    assert Aimed(w, s, At(s, u)) && Aimed(w, s, At(s, step.pass)) && CopyHolds(s.store, At(s, u));
    if Quiet(s, after, step.pass) { CommitEnds(w, s, step, u); }
  }

  // ----- committed manifests ------------------------------------------------

  lemma LogKept(w: World, s: System, step: Step)
    requires !step.Commit?
    ensures Next(w, s, step).log == s.log
  {
  }

  lemma StagedElsewhere(w: World, s: System, step: Step, i: nat)
    requires Tidy(w, s) && step.StageManifest? && i < |s.log|
    requires s.log[i].id in Next(w, s, step).store.manifests
    ensures Next(w, s, step).store.manifests[s.log[i].id] == s.log[i].manifest
  {
    assert Unused(s, At(s, step.pass));
  }

  lemma ManifestsAfterStaging(w: World, s: System, step: Step)
    requires Tidy(w, s) && step.StageManifest?
    ensures ManifestsKept(Next(w, s, step))
  {
    var after := Next(w, s, step);
    LogKept(w, s, step);
    forall i | 0 <= i < |s.log| && s.log[i].id in after.store.manifests
      ensures after.store.manifests[s.log[i].id] == s.log[i].manifest
    {
      StagedElsewhere(w, s, step, i);
    }
  }

  lemma ManifestsAfterRest(w: World, s: System, step: Step)
    requires ManifestsKept(s) && !step.Commit? && !step.StageManifest?
    ensures ManifestsKept(Next(w, s, step))
  {
    LogKept(w, s, step);
  }

  lemma ManifestsAfterCommit(w: World, s: System, step: Step)
    requires Content(w, s) && ManifestsKept(s) && step.Commit?
    ensures ManifestsKept(Next(w, s, step))
  {
    assert StagedHolds(w, s, At(s, step.pass));
    CommitArtifacts(w, s, step);
    CommitKeepsManifests(w, s, step);
  }

  lemma ManifestsKeptNext(w: World, s: System, step: Step)
    requires Content(w, s) && Tidy(w, s)
    ensures ManifestsKept(Next(w, s, step))
  {
    if step.Commit? {
      ManifestsAfterCommit(w, s, step);
    } else if step.StageManifest? {
      ManifestsAfterStaging(w, s, step);
    } else {
      ManifestsAfterRest(w, s, step);
    }
  }

  lemma CommitKeepsManifests(w: World, s: System, step: Step)
    requires step.Commit? && ManifestsKept(s) && StagedHolds(w, s, At(s, step.pass))
    requires Next(w, s, step).store.manifests == s.store.manifests
    ensures ManifestsKept(Next(w, s, step))
  {
    var after := Next(w, s, step);
    CommitShape(w, s, step);
    if !Quiet(s, after, step.pass) {
      ManifestCommitted(w, s, after, step.pass, after.store.owner.value);
    }
  }

  lemma ManifestCommitted(w: World, s: System, after: System, t: nat, own: Ownership)
    requires ManifestsKept(s) && WroteCommit(w, s, after, t, own) && after.store.manifests == s.store.manifests
    requires StagedHolds(w, s, At(s, t))
    ensures ManifestsKept(after)
  {
  }

  lemma {:induction false} RunsKeepTidy(w: World, steps: seq<Step>)
    requires Sound(w)
    ensures Tidy(w, After(w, steps))
  {
    if steps != [] {
      var before := steps[..|steps| - 1];
      RunsKeepTidy(w, before);
      RunsKeepContent(w, before);
      RunsKeepStaging(w, before);
      TidyNext(w, After(w, before), steps[|steps| - 1]);
    }
  }

  lemma SentNext(w: World, s: System, step: Step, u: nat)
    requires SentWithin(At(s, u))
    ensures SentWithin(At(Next(w, s, step), u))
  {
  }

  lemma TidyNext(w: World, s: System, step: Step)
    requires Content(w, s) && Staging(w, s) && Tidy(w, s)
    ensures Tidy(w, Next(w, s, step))
  {
    var after := Next(w, s, step);
    ManifestsKeptNext(w, s, step);
    forall u ensures Known(after, At(after, u)) && Unused(after, At(after, u)) { KnownNext(w, s, step, u); }
    forall u ensures SentWithin(At(after, u)) { SentNext(w, s, step, u); }
    if step.Commit? {
      forall u ensures Aimed(w, after, At(after, u)) { CommitAims(w, s, step, u); }
      CommitAims(w, s, step, 0);
    } else {
      forall u ensures Aimed(w, after, At(after, u)) { AimedNext(w, s, step, u); }
      LogKept(w, s, step);
    }
  }
}
