/** What the artifacts of a run contain: the active publication can always be read back. */
module RunContent {
  import opened Text
  import opened Wire
  import opened Publication
  import opened Runs
  import opened RunProofs

  // ----- chunks -------------------------------------------------------------

  lemma {:induction false} JoinedConcat(a: seq<Bytes>, b: seq<Bytes>)
    ensures Joined(a + b) == Joined(a) + Joined(b)
    decreases |b|
  {
    if b == [] {
      assert a + b == a;
    } else {
      JoinedConcat(a, b[..|b| - 1]);
      assert (a + b)[..|a + b| - 1] == a + b[..|b| - 1];
    }
  }

  lemma JoinedOne(p: Bytes)
    ensures Joined([p]) == p
  {
    assert [p][..0] == [];
  }

  lemma {:induction false} ChunksWhole(b: Bytes, size: Size)
    ensures Joined(Chunks(b, size)) == b
    decreases |b|
  {
    if |b| > size {
      ChunksWhole(b[size..], size);
      JoinedConcat([b[..size]], Chunks(b[size..], size));
      JoinedOne(b[..size]);
    } else if b != [] {
      JoinedOne(b);
    }
  }

  lemma {:induction false} ChunksSized(b: Bytes, size: Size)
    ensures forall p :: p in Chunks(b, size) ==> 0 < |p| <= size
    decreases |b|
  {
    if |b| > size {
      ChunksSized(b[size..], size);
    }
  }

  /** Cutting a payload into chunks loses and adds nothing; no chunk is empty or over the size. */
  lemma ChunksJoin(b: Bytes, size: Size)
    ensures Joined(Chunks(b, size)) == b
    ensures forall p :: p in Chunks(b, size) ==> 0 < |p| <= size
    ensures Chunks(b, size) == [] <==> b == []
  {
    ChunksWhole(b, size);
    ChunksSized(b, size);
  }

  // ----- reading a publication back -----------------------------------------

  ghost predicate ChunksStored(w: World, store: Store, id: Id, d: Draft, n: nat) {
    n <= |Parts(w, d)| &&
    forall i :: 0 <= i < n ==>
      ChunkName(id, i) in store.chunks && store.chunks[ChunkName(id, i)] == ChunkOf(w, id, Parts(w, d)[i], i)
  }

  ghost predicate Stored(w: World, store: Store, id: Id, d: Draft) {
    && ChunksStored(w, store, id, d, |Parts(w, d)|)
    && id in store.manifests && store.manifests[id] == ManifestOf(w, id, d)
  }

  /** The draft is the compilation of its own inputs. */
  ghost predicate Composed(w: World, d: Draft) {
    Compose(w, d.previous, d.input, d.tombstone) == Some((d.plan, d.payload))
  }

  lemma {:induction false} PayloadStored(w: World, store: Store, id: Id, d: Draft, n: nat)
    requires ChunksStored(w, store, id, d, |Parts(w, d)|) && n <= |Parts(w, d)|
    ensures Payload(w, store, ManifestOf(w, id, d), n) == Some(Joined(Parts(w, d)[..n]))
  {
    if n > 0 {
      PayloadStored(w, store, id, d, n - 1);
      assert Parts(w, d)[..n][..n - 1] == Parts(w, d)[..n - 1];
      assert ManifestOf(w, id, d).chunks[n - 1] == RefOf(w, Parts(w, d)[n - 1], n - 1);
    }
  }

  /** Loading a stored publication gives back the plan it was made from. */
  lemma LoadRoundTrip(w: World, store: Store, id: Id, d: Draft)
    requires Sound(w) && Stored(w, store, id, d) && Composed(w, d)
    ensures LoadManifest(w, store, ManifestOf(w, id, d)) == Loaded(d.plan)
  {
    var parts := Parts(w, d);
    PayloadStored(w, store, id, d, |parts|);
    assert parts[..|parts|] == parts;
    ChunksJoin(d.payload, w.chunkSize);
  }

  // ----- the invariant ------------------------------------------------------

  function PlanOf(log: seq<Commitment>, n: nat): Option<WirePlan>
    requires n <= |log|
  {
    if n == 0 then None else log[n - 1].draft.plan
  }

  /** The revision a writer at `epoch` builds on: the commit before it, if its own epoch made it. */
  function RevisionBefore(log: seq<Commitment>, n: nat, epoch: nat): nat
    requires n <= |log|
  {
    if n == 0 || log[n - 1].id.epoch != epoch then 0 else log[n - 1].id.revision
  }

  predicate HasDraft(p: Pass) {
    p.Drafted? || HasReserved(p)
  }

  /** While nobody else has written the record, a draft was compiled from the last commit. */
  ghost predicate Grounded(w: World, s: System, p: Pass) {
    HasDraft(p) && p.version == s.store.version ==>
      && Composed(w, p.draft) && p.draft.previous == PlanOf(s.log, |s.log|)
      && p.draft.previousRevision == RevisionBefore(s.log, |s.log|, p.own.epoch)
  }

  /** What a pass has staged is in the store while nobody else has written the record. */
  ghost predicate StagedHolds(w: World, s: System, p: Pass) {
    && (p.Reserved? && p.version == s.store.version ==>
          ChunksStored(w, s.store, Id(p.own.epoch, p.revision), p.draft, p.staged))
    && (p.Staged? && p.version == s.store.version ==> Stored(w, s.store, Id(p.own.epoch, p.revision), p.draft))
  }

  /** A commit is the compilation of its draft's inputs on top of `previous`. */
  ghost predicate CompiledFrom(w: World, c: Commitment, previous: Option<WirePlan>, revision: nat) {
    && Composed(w, c.draft) && c.draft.previous == previous && c.draft.previousRevision == revision
    && c.manifest == ManifestOf(w, c.id, c.draft)
  }

  ghost predicate BuiltOnLast(w: World, log: seq<Commitment>, c: Commitment) {
    CompiledFrom(w, c, PlanOf(log, |log|), RevisionBefore(log, |log|, c.id.epoch))
  }

  /** Every commit was compiled from the commit before it. */
  ghost predicate LinearHistory(w: World, log: seq<Commitment>) {
    log == [] ||
    (LinearHistory(w, log[..|log| - 1]) && BuiltOnLast(w, log[..|log| - 1], log[|log| - 1]))
  }

  lemma {:induction false} HistoryAt(w: World, log: seq<Commitment>, i: nat)
    requires LinearHistory(w, log) && i < |log|
    ensures BuiltOnLast(w, log[..i], log[i])
  {
    if i < |log| - 1 {
      HistoryAt(w, log[..|log| - 1], i);
      assert log[..|log| - 1][..i] == log[..i];
    }
  }

  ghost predicate ActiveStored(w: World, s: System) {
    s.log != [] ==> Stored(w, s.store, s.log[|s.log| - 1].id, s.log[|s.log| - 1].draft)
  }

  ghost predicate Content(w: World, s: System) {
    && Protocol(w, s)
    && LinearHistory(w, s.log)
    && ActiveStored(w, s)
    && (forall t :: Grounded(w, s, At(s, t)))
    && (forall t :: StagedHolds(w, s, At(s, t)))
  }

  /** From a current copy the previous plan always loads, and it is the last commit's. */
  lemma PreviousLoads(w: World, s: System, own: Ownership)
    requires Sound(w) && Content(w, s) && s.store.owner == Some(own)
    ensures LoadPrevious(w, s.store, own) == Loaded(PlanOf(s.log, |s.log|))
  {
    if s.log != [] {
      var last := s.log[|s.log| - 1];
      assert BuiltOnLast(w, s.log[..|s.log| - 1], last);
      LoadRoundTrip(w, s.store, last.id, last.draft);
    }
  }

  lemma PreviousRevision(w: World, s: System, own: Ownership)
    requires Content(w, s) && s.store.owner == Some(own)
    ensures ActiveRevision(s.store, own) == Some(RevisionBefore(s.log, |s.log|, own.epoch))
  {
    if s.log != [] {
      assert BuiltOnLast(w, s.log[..|s.log| - 1], s.log[|s.log| - 1]);
    }
  }

  // ----- staging and collecting ---------------------------------------------

  /** No artifact is changed, and every one that no commit has overtaken is kept. */
  ghost predicate ArtifactsKept(s: System, after: System) {
    && (forall c :: c in s.store.chunks && (c in after.store.chunks || !Overtaken(s, c.id)) ==>
          c in after.store.chunks && after.store.chunks[c] == s.store.chunks[c])
    && (forall m :: m in s.store.manifests && (m in after.store.manifests || !Overtaken(s, m)) ==>
          m in after.store.manifests && after.store.manifests[m] == s.store.manifests[m])
  }

  lemma StoredKept(w: World, s: System, after: System, id: Id, d: Draft, n: nat)
    requires ArtifactsKept(s, after) && !Overtaken(s, id) && ChunksStored(w, s.store, id, d, n)
    ensures ChunksStored(w, after.store, id, d, n)
    ensures Stored(w, s.store, id, d) ==> Stored(w, after.store, id, d)
  {
    forall i | 0 <= i < n
      ensures ChunkName(id, i) in after.store.chunks && after.store.chunks[ChunkName(id, i)] == ChunkOf(w, id, Parts(w, d)[i], i)
    {
      assert ChunkName(id, i) in s.store.chunks;
    }
    if Stored(w, s.store, id, d) {
      forall i | 0 <= i < |Parts(w, d)|
        ensures ChunkName(id, i) in after.store.chunks && after.store.chunks[ChunkName(id, i)] == ChunkOf(w, id, Parts(w, d)[i], i)
      {
        assert ChunkName(id, i) in s.store.chunks;
      }
    }
  }

  lemma StagingArtifacts(w: World, s: System, step: Step)
    requires (step.StageChunk? || step.StageManifest? || step.CollectChunk? || step.CollectManifest?)
    ensures ArtifactsKept(s, Next(w, s, step))
  {
  }

  lemma SameArtifacts(w: World, s: System, step: Step)
    requires !step.StageChunk? && !step.StageManifest? && !step.CollectChunk? && !step.CollectManifest?
    ensures Next(w, s, step).store.chunks == s.store.chunks && Next(w, s, step).store.manifests == s.store.manifests
  {
  }

  lemma ArtifactsNext(w: World, s: System, step: Step)
    ensures ArtifactsKept(s, Next(w, s, step))
  {
    if step.StageChunk? || step.StageManifest? || step.CollectChunk? || step.CollectManifest? {
      StagingArtifacts(w, s, step);
    } else {
      SameArtifacts(w, s, step);
    }
  }

  lemma ActiveKept(w: World, s: System, after: System)
    requires Content(w, s) && ArtifactsKept(s, after) && after.log == s.log
    ensures ActiveStored(w, after)
  {
    if s.log != [] {
      var last := s.log[|s.log| - 1];
      StoredKept(w, s, after, last.id, last.draft, |Parts(w, last.draft)|);
    }
  }

  /** A pass that goes on as it was keeps what it has staged. */
  lemma PassKept(w: World, s: System, after: System, t: nat)
    requires Content(w, s) && ArtifactsKept(s, after) && after.log == s.log
    requires after.store.version >= s.store.version && At(after, t) == At(s, t)
    ensures Grounded(w, after, At(after, t)) && StagedHolds(w, after, At(after, t))
  {
    var p := At(s, t);
    assert Grounded(w, s, p) && StagedHolds(w, s, p) && CopyHolds(s.store, p) && Ahead(s, p);
    if HasReserved(p) && p.version == after.store.version {
      if p.Reserved? {
        StoredKept(w, s, after, Id(p.own.epoch, p.revision), p.draft, p.staged);
      } else {
        StoredKept(w, s, after, Id(p.own.epoch, p.revision), p.draft, |Parts(w, p.draft)|);
      }
    }
  }

  /** The invariant after a step that leaves the log alone, given what its own pass is left with. */
  lemma ContentKept(w: World, s: System, step: Step, t: nat)
    requires Content(w, s)
    requires var after := Next(w, s, step);
             && after.log == s.log && after.store.version >= s.store.version && OthersKept(s, after, t)
             && Grounded(w, after, At(after, t)) && StagedHolds(w, after, At(after, t))
    ensures Content(w, Next(w, s, step))
  {
    var after := Next(w, s, step);
    ProtocolNext(w, s, step);
    ArtifactsNext(w, s, step);
    ActiveKept(w, s, after);
    forall u ensures Grounded(w, after, At(after, u)) && StagedHolds(w, after, At(after, u)) {
      if u != t { PassKept(w, s, after, u); }
    }
  }

  lemma DraftGrounded(w: World, s: System, step: Step)
    requires Sound(w) && Content(w, s) && step.Compile?
    ensures Grounded(w, Next(w, s, step), At(Next(w, s, step), step.pass))
    ensures StagedHolds(w, Next(w, s, step), At(Next(w, s, step), step.pass))
  {
    var p := At(s, step.pass);
    assert CopyHolds(s.store, p);
    if p.Held? && p.version == s.store.version {
      PreviousLoads(w, s, p.own);
      PreviousRevision(w, s, p.own);
    } else if !p.Held? {
      assert Grounded(w, s, p) && StagedHolds(w, s, p);
    }
  }

  lemma ReservationGrounded(w: World, s: System, step: Step)
    requires Content(w, s) && step.Reserve?
    ensures Grounded(w, Next(w, s, step), At(Next(w, s, step), step.pass))
    ensures StagedHolds(w, Next(w, s, step), At(Next(w, s, step), step.pass))
  {
    var p := At(s, step.pass);
    assert Grounded(w, s, p) && StagedHolds(w, s, p);
  }

  lemma ChunkGrounded(w: World, s: System, step: Step)
    requires Content(w, s) && step.StageChunk?
    ensures Grounded(w, Next(w, s, step), At(Next(w, s, step), step.pass))
    ensures StagedHolds(w, Next(w, s, step), At(Next(w, s, step), step.pass))
  {
    var p := At(s, step.pass);
    assert Grounded(w, s, p) && StagedHolds(w, s, p);
  }

  lemma StagingGrounded(w: World, s: System, step: Step)
    requires Content(w, s) && (step.StageManifest? || step.StageOutbox?)
    ensures Grounded(w, Next(w, s, step), At(Next(w, s, step), step.pass))
    ensures StagedHolds(w, Next(w, s, step), At(Next(w, s, step), step.pass))
  {
    var p := At(s, step.pass);
    assert Grounded(w, s, p) && StagedHolds(w, s, p);
  }

  lemma OtherGrounded(w: World, s: System, step: Step)
    requires Content(w, s)
    requires step.Get? || step.Keep? || step.Crash? || step.Take? || step.Release? || step.Renew?
    ensures Grounded(w, Next(w, s, step), At(Next(w, s, step), step.pass))
    ensures StagedHolds(w, Next(w, s, step), At(Next(w, s, step), step.pass))
  {
    var p := At(s, step.pass);
    assert Grounded(w, s, p) && StagedHolds(w, s, p);
  }

  lemma HistoryExtends(w: World, log: seq<Commitment>, c: Commitment)
    requires LinearHistory(w, log) && BuiltOnLast(w, log, c)
    ensures LinearHistory(w, log + [c])
  {
    assert (log + [c])[..|log|] == log;
  }

  /** The new commit is the staged draft. */
  lemma CommitHistory(w: World, s: System, after: System, t: nat, own: Ownership)
    requires Content(w, s) && WroteCommit(w, s, after, t, own)
    requires after.store.chunks == s.store.chunks && after.store.manifests == s.store.manifests
    ensures LinearHistory(w, after.log) && ActiveStored(w, after)
  {
    var p := At(s, t);
    assert Grounded(w, s, p) && StagedHolds(w, s, p);
    HistoryExtends(w, s.log, after.log[|s.log|]);
  }

  lemma CommitPasses(w: World, s: System, after: System, t: nat, own: Ownership, u: nat)
    requires Protocol(w, s) && WroteCommit(w, s, after, t, own)
    ensures Grounded(w, after, At(after, u)) && StagedHolds(w, after, At(after, u))
  {
    assert CopyHolds(s.store, At(s, u));
    assert u != t ==> At(after, u) == At(s, u);
  }

  lemma CommitArtifacts(w: World, s: System, step: Step)
    requires step.Commit?
    ensures Next(w, s, step).store.chunks == s.store.chunks && Next(w, s, step).store.manifests == s.store.manifests
  {
  }

  lemma CommitContent(w: World, s: System, step: Step)
    requires Content(w, s) && step.Commit?
    ensures Content(w, Next(w, s, step))
  {
    var after := Next(w, s, step);
    ProtocolNext(w, s, step);
    CommitShape(w, s, step);
    CommitArtifacts(w, s, step);
    if Quiet(s, after, step.pass) {
      CommitFailed(w, s, step);
    } else {
      CommitHistory(w, s, after, step.pass, after.store.owner.value);
      forall u ensures Grounded(w, after, At(after, u)) && StagedHolds(w, after, At(after, u)) {
        CommitPasses(w, s, after, step.pass, after.store.owner.value, u);
      }
    }
  }

  lemma CommitFailed(w: World, s: System, step: Step)
    requires Content(w, s) && step.Commit? && Quiet(s, Next(w, s, step), step.pass)
    ensures Content(w, Next(w, s, step))
  {
    assert Grounded(w, s, At(s, step.pass)) && StagedHolds(w, s, At(s, step.pass));
    assert At(Next(w, s, step), step.pass).Idle? || At(Next(w, s, step), step.pass) == At(s, step.pass);
    ArtifactsNext(w, s, step);
    PassStays(w, s, Next(w, s, step), step.pass);
    ContentKept(w, s, step, step.pass);
  }

  lemma PassStays(w: World, s: System, after: System, t: nat)
    requires Content(w, s) && ArtifactsKept(s, after) && after.log == s.log
    requires after.store.version >= s.store.version && (At(after, t).Idle? || At(after, t) == At(s, t))
    ensures Grounded(w, after, At(after, t)) && StagedHolds(w, after, At(after, t))
  {
    if At(after, t) == At(s, t) { PassKept(w, s, after, t); }
  }

  lemma CreateContent(w: World, s: System, step: Step)
    requires Content(w, s) && step.Create?
    ensures Content(w, Next(w, s, step))
  {
    ArtifactsNext(w, s, step);
    PassKept(w, s, Next(w, s, step), 0);
    ContentKept(w, s, step, 0);
  }

  lemma OutsideFrame(w: World, s: System, step: Step)
    requires (step.Acknowledge? || step.CollectChunk? || step.CollectManifest? || step.CollectOutbox?)
    ensures var after := Next(w, s, step);
            after.passes == s.passes && after.log == s.log && after.store.version == s.store.version
  {
  }

  lemma OutsideContent(w: World, s: System, step: Step)
    requires Content(w, s)
    requires step.Acknowledge? || step.CollectChunk? || step.CollectManifest? || step.CollectOutbox?
    ensures Content(w, Next(w, s, step))
  {
    var after := Next(w, s, step);
    OutsideFrame(w, s, step);
    ArtifactsNext(w, s, step);
    AllPassesKept(w, s, after);
    ContentKept(w, s, step, 0);
  }

  lemma AllPassesKept(w: World, s: System, after: System)
    requires Content(w, s) && ArtifactsKept(s, after) && after.log == s.log
    requires after.store.version >= s.store.version && after.passes == s.passes
    ensures OthersKept(s, after, 0) && Grounded(w, after, At(after, 0)) && StagedHolds(w, after, At(after, 0))
  {
    PassKept(w, s, after, 0);
  }

  lemma WriteFrame(w: World, s: System, step: Step)
    requires (step.Take? || step.Release? || step.Renew? || step.Reserve?)
    ensures var after := Next(w, s, step);
            after.log == s.log && after.store.version >= s.store.version && OthersKept(s, after, step.pass)
  {
  }

  lemma LocalFrame(w: World, s: System, step: Step)
    requires (step.Get? || step.Keep? || step.Compile? || step.Crash? || step.StageChunk? || step.StageManifest? || step.StageOutbox?)
    ensures var after := Next(w, s, step);
            after.log == s.log && after.store.version >= s.store.version && OthersKept(s, after, step.pass)
  {
  }

  /** Only commits touch the log and only patches the version. */
  lemma StepFrame(w: World, s: System, step: Step)
    requires !step.Commit? && !step.Create? && !step.Acknowledge?
    requires !step.CollectChunk? && !step.CollectManifest? && !step.CollectOutbox?
    ensures var after := Next(w, s, step);
            after.log == s.log && after.store.version >= s.store.version && OthersKept(s, after, step.pass)
  {
    if step.Take? || step.Release? || step.Renew? || step.Reserve? {
      WriteFrame(w, s, step);
    } else {
      LocalFrame(w, s, step);
    }
  }

  lemma ContentNext(w: World, s: System, step: Step)
    requires Sound(w) && Content(w, s)
    ensures Content(w, Next(w, s, step))
  {
    if step.Create? {
      CreateContent(w, s, step);
    } else if step.Commit? {
      CommitContent(w, s, step);
    } else if step.Acknowledge? || step.CollectChunk? || step.CollectManifest? || step.CollectOutbox? {
      OutsideContent(w, s, step);
    } else {
      if step.Compile? { DraftGrounded(w, s, step); }
      else if step.Reserve? { ReservationGrounded(w, s, step); }
      else if step.StageChunk? { ChunkGrounded(w, s, step); }
      else if step.StageManifest? || step.StageOutbox? { StagingGrounded(w, s, step); }
      else { OtherGrounded(w, s, step); }
      StepFrame(w, s, step);
      ContentKept(w, s, step, step.pass);
    }
  }

  /** Every reachable state keeps the protocol, its artifacts and a linear history. */
  lemma {:induction false} RunsKeepContent(w: World, steps: seq<Step>)
    requires Sound(w)
    ensures Content(w, After(w, steps))
  {
    if steps != [] {
      RunsKeepContent(w, steps[..|steps| - 1]);
      ContentNext(w, After(w, steps[..|steps| - 1]), steps[|steps| - 1]);
    }
  }

  /** Every manifest committed in a run meets the type's validation rules. */
  lemma ManifestRulesHold(w: World, steps: seq<Step>, i: nat)
    requires Sound(w) && i < |After(w, steps).log|
    ensures var m := After(w, steps).log[i].manifest;
            && m.previousRevision < m.id.revision
            && (m.tombstone <==> m.chunks == [])
            && (m.tombstone ==> m.contentHash == w.hash([]))
  {
    var s := After(w, steps);
    RunsKeepContent(w, steps);
    HistoryAt(w, s.log, i);
    ChunksJoin(s.log[i].draft.payload, w.chunkSize);
  }
}
