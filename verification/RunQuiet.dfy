/** When a pass publishes nothing: exactly when it cannot compile, has nothing to serve, or nothing changed. */
module RunQuiet {
  import opened Text
  import opened Sources
  import opened Publication
  import opened Runs
  import opened RunProofs
  import opened RunContent
  import opened RunWithdrawals

  /** What a revision publishes, as far as the next pass compares it. */
  function StateOf(w: World, tombstone: bool, payload: Bytes, serving: set<Target>, expected: set<string>): string {
    if tombstone then w.hash([]) else w.stateHash(payload, serving, expected)
  }

  function DraftState(w: World, d: Draft): string {
    StateOf(w, d.tombstone, d.payload, d.serving, d.expected)
  }

  ghost predicate DraftHashed(w: World, p: Pass) {
    HasDraft(p) ==> p.draft.stateHash == DraftState(w, p.draft)
  }

  /** The record remembers the state of the last commit. */
  ghost predicate Hashed(w: World, s: System) {
    && (forall t :: DraftHashed(w, At(s, t)))
    && (s.log != [] && s.store.owner.Some? ==> s.store.owner.value.lastHash == DraftState(w, s.log[|s.log| - 1].draft))
  }

  lemma PreparedHash(w: World, store: Store, own: Ownership, input: Input, tombstone: bool, bound: set<Target>)
    requires Prepare(w, store, own, input, tombstone, bound).Some?
    ensures var d := Prepare(w, store, own, input, tombstone, bound).value; d.stateHash == DraftState(w, d)
  {
  }

  lemma QuietHashed(w: World, s: System, after: System, t: nat)
    requires Hashed(w, s) && Quiet(s, after, t) && DraftHashed(w, At(after, t))
    ensures Hashed(w, after)
  {
    forall u ensures DraftHashed(w, At(after, u)) { assert u != t ==> DraftHashed(w, At(s, u)); }
  }

  lemma CompileHashed(w: World, s: System, step: Step)
    requires Hashed(w, s) && step.Compile?
    ensures Hashed(w, Next(w, s, step))
  {
    LocalShape(w, s, step);
    CompileShape(w, s, step);
    assert DraftHashed(w, At(s, step.pass));
    var p, q := At(s, step.pass), At(Next(w, s, step), step.pass);
    if q.Drafted? && p.Held? {
      PreparedHash(w, s.store, p.own, step.input, step.tombstone, step.bound);
    }
    QuietHashed(w, s, Next(w, s, step), step.pass);
  }

  lemma StagingHashed(w: World, s: System, step: Step)
    requires Hashed(w, s) && (step.StageChunk? || step.StageManifest? || step.StageOutbox?)
    ensures Hashed(w, Next(w, s, step))
  {
    StagingShape(w, s, step);
    assert DraftHashed(w, At(s, step.pass));
    StagingKeepsDraft(w, s, step, step.pass);
    QuietHashed(w, s, Next(w, s, step), step.pass);
  }

  lemma WriteHashed(w: World, s: System, step: Step)
    requires Hashed(w, s) && Protocol(w, s) && (step.Take? || step.Release? || step.Renew? || step.Reserve?)
    ensures Hashed(w, Next(w, s, step))
  {
    var after := Next(w, s, step);
    assert DraftHashed(w, At(s, step.pass)) && CopyHolds(s.store, At(s, step.pass));
    forall u ensures DraftHashed(w, At(after, u)) { assert DraftHashed(w, At(s, u)); }
  }

  lemma CommitHashed(w: World, s: System, step: Step)
    requires Hashed(w, s) && Protocol(w, s) && step.Commit?
    ensures Hashed(w, Next(w, s, step))
  {
    var after := Next(w, s, step);
    assert DraftHashed(w, At(s, step.pass)) && CopyHolds(s.store, At(s, step.pass));
    forall u ensures DraftHashed(w, At(after, u)) { assert DraftHashed(w, At(s, u)); }
  }

  lemma RestHashed(w: World, s: System, step: Step)
    requires Hashed(w, s) && Protocol(w, s)
    requires step.Create? || step.Get? || step.Keep? || step.Crash? || step.Acknowledge?
             || step.CollectChunk? || step.CollectManifest? || step.CollectOutbox?
    ensures Hashed(w, Next(w, s, step))
  {
    var after := Next(w, s, step);
    RestFrame(w, s, step);
    forall u ensures DraftHashed(w, At(after, u)) {
      assert DraftHashed(w, At(s, u));
      RestDraft(w, s, step, u);
    }
  }

  lemma RestFrame(w: World, s: System, step: Step)
    requires step.Create? || step.Get? || step.Keep? || step.Crash? || step.Acknowledge?
             || step.CollectChunk? || step.CollectManifest? || step.CollectOutbox?
    ensures Next(w, s, step).log == s.log && (s.store.owner.Some? ==> Next(w, s, step).store.owner == s.store.owner)
  {
  }

  lemma RestDraft(w: World, s: System, step: Step, u: nat)
    requires step.Create? || step.Get? || step.Keep? || step.Crash? || step.Acknowledge?
             || step.CollectChunk? || step.CollectManifest? || step.CollectOutbox?
    ensures HasDraft(At(Next(w, s, step), u)) ==> At(Next(w, s, step), u) == At(s, u)
  {
  }

  lemma {:induction false} RunsKeepHashed(w: World, steps: seq<Step>)
    requires Sound(w)
    ensures Hashed(w, After(w, steps)) && Content(w, After(w, steps))
  {
    RunsKeepContent(w, steps);
    if steps != [] {
      var s, step := After(w, steps[..|steps| - 1]), steps[|steps| - 1];
      RunsKeepHashed(w, steps[..|steps| - 1]);
      if step.Compile? { CompileHashed(w, s, step); }
      else if step.StageChunk? || step.StageManifest? || step.StageOutbox? { StagingHashed(w, s, step); }
      else if step.Commit? { CommitHashed(w, s, step); }
      else if step.Take? || step.Release? || step.Renew? || step.Reserve? { WriteHashed(w, s, step); }
      else { RestHashed(w, s, step); }
    }
  }

  // ----- when nothing is published ------------------------------------------

  /** The last commit was made under this epoch and published the same state. */
  ghost predicate Unchanged(w: World, log: seq<Commitment>, epoch: nat, state: string) {
    log != [] && log[|log| - 1].id.epoch == epoch && DraftState(w, log[|log| - 1].draft) == state
  }

  function ActiveOf(store: Store, own: Ownership): Option<Manifest> {
    if own.active.Some? && own.active.value in store.manifests then Some(store.manifests[own.active.value]) else None
  }

  /**
   * From a current copy a pass publishes nothing if and only if the zone does
   * not compile, or nothing here serves or served it, or the last commit of
   * this epoch already published exactly this state.
   */
  lemma PublishesUnlessUnchanged(w: World, steps: seq<Step>, input: Input, tombstone: bool, bound: set<Target>)
    requires Sound(w) && After(w, steps).store.owner.Some?
    ensures var s := After(w, steps);
            var own, last := s.store.owner.value, ActiveOf(s.store, s.store.owner.value);
            var composed := Compose(w, PlanOf(s.log, |s.log|), input, tombstone);
            var desired := Desired(last, bound, tombstone);
            Prepare(w, s.store, own, input, tombstone, bound).None? <==>
              || composed.None?
              || (w.regional && ServingOf(w, desired) == {} && s.log == [])
              || Unchanged(w, s.log, own.epoch, StateOf(w, tombstone, composed.value.1, ServingOf(w, desired), ExpectedOf(w, last, desired, tombstone)))
  {
    var s := After(w, steps);
    RunsKeepHashed(w, steps);
    PreviousLoads(w, s, s.store.owner.value);
    PreviousRevision(w, s, s.store.owner.value);
  }
}
