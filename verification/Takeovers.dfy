/** What may still be committed: a draft on a current copy, and a second withdrawal by whoever takes the zone over. */
module Takeovers {
  import opened Text
  import opened Sources
  import opened Publication
  import opened Runs
  import opened RunContent
  import opened RunStaging
  import opened RunWithdrawals
  import opened RunTombstones
  import opened RunProgress

  ghost predicate Reachable(w: World, s: System) {
    Content(w, s) && Staging(w, s) && Tidy(w, s)
  }

  lemma ReachableAfter(w: World, steps: seq<Step>)
    requires Sound(w)
    ensures Reachable(w, After(w, steps))
  {
    RunsKeepContent(w, steps);
    RunsKeepStaging(w, steps);
    RunsKeepTidy(w, steps);
  }

  lemma ReachableNext(w: World, s: System, step: Step)
    requires Sound(w) && Reachable(w, s)
    ensures Reachable(w, Next(w, s, step))
  {
    ContentNext(w, s, step);
    StagingNext(w, s, step);
    TidyNext(w, s, step);
  }

  // ----- a draft on a current copy ------------------------------------------

  ghost predicate Current(s: System, t: nat) {
    HasDraft(At(s, t)) && At(s, t).version == s.store.version
  }

  lemma StagedCommits(w: World, s: System, t: nat, now: int) returns (more: seq<Step>)
    requires Reachable(w, s) && s.store.owner.Some? && At(s, t).Staged? && At(s, t).version == s.store.version
    ensures exists c :: Continue(w, s, more).log == s.log + [c] && c.draft == At(s, t).draft
    ensures forall x :: x in more ==> Finishes(x, t)
  {
    var p := At(s, t);
    var all := p.draft.serving + p.draft.withdrawn;
    assert SentWithin(p);
    var outboxes := SendsAll(w, s, t, all);
    assert p.sent + all == all;
    var b := Continue(w, s, outboxes);
    Commits(w, b, t, now);
    more := outboxes + [Step.Commit(t, now)];
    ContinueConcat(w, s, outboxes, [Step.Commit(t, now)]);
    ContinueOne(w, b, Step.Commit(t, now));
  }

  /** A draft whose copy is current is committed by the pass's own steps. */
  lemma CurrentDraftCommits(w: World, s: System, t: nat, now: int) returns (more: seq<Step>)
    requires Reachable(w, s) && Current(s, t)
    ensures exists c :: Continue(w, s, more).log == s.log + [c] && c.draft == At(s, t).draft
    ensures forall x :: x in more ==> Finishes(x, t)
  {
    assert CopyHolds(s.store, At(s, t)) && StagedHolds(w, s, At(s, t));
    if At(s, t).Drafted? {
      var a := Step.Reserve(t, now);
      Reserves(w, s, t, now);
      StagingNext(w, s, a);
      var rest := ReservationCommits(w, Next(w, s, a), t, now);
      more := [a] + rest;
      ContinueOne(w, s, a);
      ContinueConcat(w, s, [a], rest);
    } else if At(s, t).Reserved? {
      more := ReservationCommits(w, s, t, now);
    } else {
      more := StagedCommits(w, s, t, now);
    }
  }

  // ----- a withdrawal after a takeover --------------------------------------

  /** The step belongs to a takeover that withdraws the zone. */
  predicate Withdraws(x: Step, t: nat) {
    x.Take? || OwnStep(x, t, true)
  }

  lemma TakeNext(w: World, s: System, t: nat)
    requires s.store.owner.Some?
    ensures var own := s.store.owner.value;
            var after := Next(w, Next(w, s, Get(t)), Take(t, own.holder + "+", own.lease));
            && after.log == s.log && after.store.manifests == s.store.manifests
            && after.store.owner.Some? && after.store.owner.value.epoch > own.epoch
  {
    var own := s.store.owner.value;
    assert |own.holder + "+"| != |own.holder|;
    assert At(Next(w, s, Get(t)), t) == Seen(s.store.version, own);
  }

  /** Another replica reads the record and takes it when its lease has run out. */
  lemma TakesOver(w: World, s: System, t: nat) returns (more: seq<Step>)
    requires Sound(w) && Reachable(w, s) && s.store.owner.Some?
    ensures var after := Continue(w, s, more);
            && Reachable(w, after) && after.log == s.log && after.store.manifests == s.store.manifests
            && after.store.owner.Some? && after.store.owner.value.epoch > s.store.owner.value.epoch
    ensures forall x :: x in more ==> Withdraws(x, t)
  {
    var own := s.store.owner.value;
    var a, b := Get(t), Take(t, own.holder + "+", own.lease);
    TakeNext(w, s, t);
    ReachableNext(w, s, a);
    ReachableNext(w, Next(w, s, a), b);
    more := [a] + [b];
    ContinueConcat(w, s, [a], [b]);
    ContinueOne(w, s, a);
    ContinueOne(w, Next(w, s, a), b);
  }

  /** A holder whose epoch did not write the active publication always has a withdrawal to publish. */
  lemma WithdrawalPrepared(w: World, s: System, input: Input)
    requires Sound(w) && Reachable(w, s) && s.log != [] && s.store.owner.Some?
    requires s.log[|s.log| - 1].id.epoch < s.store.owner.value.epoch
    ensures var d := Prepare(w, s.store, s.store.owner.value, input, true, {});
            d.Some? && d.value.tombstone && d.value.stateHash == w.hash([]) && d.value.serving == ServingOf(w, s.log[|s.log| - 1].manifest.serving)
  {
    var own := s.store.owner.value;
    PreviousLoads(w, s, own);
    PreviousRevision(w, s, own);
    ActiveManifest(w, s);
    assert Desired(Some(s.log[|s.log| - 1].manifest), {}, true) == s.log[|s.log| - 1].manifest.serving;
  }

  /**
   * A replica that takes over a published zone can always commit a withdrawal,
   * also when the active publication is one, and it serves the same local shards.
   */
  lemma TakeoverWithdraws(w: World, s: System, t: nat, input: Input) returns (more: seq<Step>, c: Commitment)
    requires Sound(w) && Reachable(w, s) && s.log != []
    ensures Continue(w, s, more).log == s.log + [c]
    ensures c.draft.tombstone && c.manifest == ManifestOf(w, c.id, c.draft)
    ensures c.manifest.serving == ServingOf(w, s.log[|s.log| - 1].manifest.serving)
    ensures !Committed(s.log, c.id) && HeldIn(Continue(w, s, more), c.id.epoch, w.hash([]))
    ensures forall x :: x in more ==> Withdraws(x, t)
  {
    var take := TakesOver(w, s, t);
    var a := Continue(w, s, take);
    WithdrawalPrepared(w, a, input);
    var rest := PassCommits(w, a, t, input, true, {}, 0);
    more := take + rest;
    ContinueConcat(w, s, take, rest);
    var own := a.store.owner.value;
    c := CommitmentOf(w, own.epoch, Reservation(own), Prepare(w, a.store, own, input, true, {}).value);
  }
}
