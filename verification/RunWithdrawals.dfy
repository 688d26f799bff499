/** Withdrawals are never forgotten: a shard that served a zone is told when it no longer does. */
module RunWithdrawals {
  import opened Text
  import opened Publication
  import opened Runs
  import opened RunProofs
  import opened RunContent

  /** Where a delivery is marked acknowledged, it has been. */
  ghost predicate AcksKnown(s: System) {
    forall o :: o in s.store.outboxes && s.store.outboxes[o] ==> o in s.acked
  }

  /** `d` serves or withdraws every shard of `m` that has not acknowledged its withdrawal. */
  ghost predicate HandsOver(w: World, m: Manifest, acked: set<OutboxName>, d: Draft) {
    && (forall v :: v in m.serving + m.withdrawn && Withdrawable(w, v) ==>
          || v in d.serving + d.withdrawn
          || (v !in m.serving && OutboxName(m.id, v) in acked))
    && ExpectsAll(w, m, d.serving, d.expected, d.tombstone)
  }

  /** Regions served are expected, and a withdrawal stays expected wherever the zone was. */
  ghost predicate ExpectsAll(w: World, m: Manifest, serving: set<Target>, expected: set<string>, tombstone: bool) {
    w.regional ==> RegionsOf(serving) <= expected && (tombstone ==> m.expected <= expected)
  }

  ghost predicate ExpectedKept(w: World, log: seq<Commitment>) {
    forall i :: 1 <= i < |log| ==>
      ExpectsAll(w, log[i - 1].manifest, log[i].manifest.serving, log[i].manifest.expected, log[i].manifest.tombstone)
  }

  ghost predicate PassHandsOver(w: World, s: System, p: Pass) {
    HasDraft(p) && p.version == s.store.version && s.log != [] ==>
      HandsOver(w, s.log[|s.log| - 1].manifest, s.acked, p.draft)
  }

  /** Some revision after the `i`-th withdrew `v`, and the shard acknowledged it. */
  ghost predicate Withdrew(log: seq<Commitment>, acked: set<OutboxName>, i: nat, v: Target) {
    exists j :: i < j < |log| && v in log[j].manifest.withdrawn && OutboxName(log[j].manifest.id, v) in acked
  }

  ghost predicate Remembered(w: World, log: seq<Commitment>, acked: set<OutboxName>) {
    forall i, v :: 0 <= i < |log| && v in log[i].manifest.serving && Withdrawable(w, v) ==>
      || v in log[|log| - 1].manifest.serving + log[|log| - 1].manifest.withdrawn
      || Withdrew(log, acked, i, v)
  }

  ghost predicate Withdrawing(w: World, s: System) {
    && Content(w, s)
    && AcksKnown(s)
    && (forall t :: PassHandsOver(w, s, At(s, t)))
    && Remembered(w, s.log, s.acked)
    && ExpectedKept(w, s.log)
  }

  /** What publicationTargets computes hands the previous manifest over. */
  lemma TargetsHandOver(w: World, s: System, m: Manifest, bound: set<Target>, tombstone: bool, d: Draft)
    requires AcksKnown(s)
    requires var desired := Desired(Some(m), bound, tombstone);
             && d.serving == ServingOf(w, desired) && d.withdrawn == Withdrawals(w, s.store, Some(m), desired, tombstone)
             && d.expected == ExpectedOf(w, Some(m), desired, tombstone) && d.tombstone == tombstone
    ensures HandsOver(w, m, s.acked, d)
  {
  }

  lemma ActiveManifest(w: World, s: System)
    requires Content(w, s) && s.log != []
    ensures var last := s.log[|s.log| - 1];
            && s.store.owner.Some? && s.store.owner.value.active == Some(last.id)
            && last.id in s.store.manifests && s.store.manifests[last.id] == last.manifest
  {
    HistoryAt(w, s.log, |s.log| - 1);
  }

  lemma CompileShape(w: World, s: System, step: Step)
    requires step.Compile?
    ensures var p, q := At(s, step.pass), At(Next(w, s, step), step.pass);
            || q.Idle? || q == p
            || (p.Held? && q.Drafted? && q.version == p.version && q.own == p.own
                && Prepare(w, s.store, p.own, step.input, step.tombstone, step.bound) == Some(q.draft))
  {
  }

  lemma CompileHandsOver(w: World, s: System, step: Step)
    requires Withdrawing(w, s) && step.Compile?
    ensures PassHandsOver(w, Next(w, s, step), At(Next(w, s, step), step.pass))
  {
    var p, after := At(s, step.pass), Next(w, s, step);
    assert PassHandsOver(w, s, p) && CopyHolds(s.store, p);
    CompileShape(w, s, step);
    if p.Held? && s.log != [] {
      ActiveManifest(w, s);
      var q := At(after, step.pass);
      if q.Drafted? && q.version == s.store.version {
        TargetsHandOver(w, s, s.log[|s.log| - 1].manifest, step.bound, step.tombstone, q.draft);
      }
    }
  }

  /** A pass that keeps its draft and a copy no newer than before, with no new commit. */
  lemma HandsOverKept(w: World, s: System, after: System, p: Pass, q: Pass)
    requires PassHandsOver(w, s, p) && after.log == s.log && s.acked <= after.acked
    requires HasDraft(q) && q.version == after.store.version ==>
               HasDraft(p) && p.draft == q.draft && p.version == s.store.version
    ensures PassHandsOver(w, after, q)
  {
  }

  /** A draft that can still be committed was there before the step. */
  ghost predicate DraftWasThere(s: System, after: System, u: nat) {
    && after.log == s.log && s.acked <= after.acked
    && var p, q := At(s, u), At(after, u);
    HasDraft(q) && q.version == after.store.version ==> HasDraft(p) && p.draft == q.draft && p.version == s.store.version
  }

  lemma LeaseKeepsDraft(w: World, s: System, step: Step, u: nat)
    requires CopyHolds(s.store, At(s, u)) && (step.Take? || step.Release? || step.Renew?)
    ensures DraftWasThere(s, Next(w, s, step), u)
  {
  }

  lemma ReserveKeepsDraft(w: World, s: System, step: Step, u: nat)
    requires CopyHolds(s.store, At(s, u)) && step.Reserve?
    ensures DraftWasThere(s, Next(w, s, step), u)
  {
  }

  lemma StagingKeepsDraft(w: World, s: System, step: Step, u: nat)
    requires (step.StageChunk? || step.StageManifest? || step.StageOutbox?)
    ensures DraftWasThere(s, Next(w, s, step), u)
  {
  }

  lemma RestKeepsDraft(w: World, s: System, step: Step, u: nat)
    requires CopyHolds(s.store, At(s, u))
    requires step.Create? || step.Get? || step.Keep? || step.Crash? || step.Acknowledge?
             || step.CollectChunk? || step.CollectManifest? || step.CollectOutbox?
    ensures DraftWasThere(s, Next(w, s, step), u)
  {
  }

  lemma DraftKept(w: World, s: System, step: Step, u: nat)
    requires Protocol(w, s) && !step.Commit? && !step.Compile?
    ensures DraftWasThere(s, Next(w, s, step), u)
  {
    assert CopyHolds(s.store, At(s, u));
    if step.Take? || step.Release? || step.Renew? {
      LeaseKeepsDraft(w, s, step, u);
    } else if step.Reserve? {
      ReserveKeepsDraft(w, s, step, u);
    } else if step.StageChunk? || step.StageManifest? || step.StageOutbox? {
      StagingKeepsDraft(w, s, step, u);
    } else {
      RestKeepsDraft(w, s, step, u);
    }
  }

  lemma OthersKeptByCompile(w: World, s: System, step: Step, u: nat)
    requires step.Compile? && u != step.pass
    ensures var after := Next(w, s, step);
            after.log == s.log && after.acked == s.acked && after.store == s.store && At(after, u) == At(s, u)
  {
  }

  lemma AcksNext(w: World, s: System, step: Step)
    requires AcksKnown(s)
    ensures AcksKnown(Next(w, s, step)) && s.acked <= Next(w, s, step).acked
  {
  }

  lemma RememberedMore(w: World, log: seq<Commitment>, acked: set<OutboxName>, more: set<OutboxName>)
    requires Remembered(w, log, acked) && acked <= more
    ensures Remembered(w, log, more)
  {
    forall i, v | 0 <= i < |log| && v in log[i].manifest.serving && Withdrawable(w, v)
      ensures v in log[|log| - 1].manifest.serving + log[|log| - 1].manifest.withdrawn || Withdrew(log, more, i, v)
    {
      if Withdrew(log, acked, i, v) {
        var j :| i < j < |log| && v in log[j].manifest.withdrawn && OutboxName(log[j].manifest.id, v) in acked;
      }
    }
  }

  lemma WithdrewKept(log: seq<Commitment>, c: Commitment, acked: set<OutboxName>, i: nat, v: Target)
    requires Withdrew(log, acked, i, v)
    ensures Withdrew(log + [c], acked, i, v)
  {
    var j :| i < j < |log| && v in log[j].manifest.withdrawn && OutboxName(log[j].manifest.id, v) in acked;
    assert (log + [c])[j] == log[j];
  }

  /** A commit that hands the last one over forgets nobody. */
  lemma RememberedCommit(w: World, log: seq<Commitment>, c: Commitment, acked: set<OutboxName>)
    requires Remembered(w, log, acked)
    requires c.manifest.serving == c.draft.serving && c.manifest.withdrawn == c.draft.withdrawn
    requires log != [] ==> HandsOver(w, log[|log| - 1].manifest, acked, c.draft)
    ensures Remembered(w, log + [c], acked)
  {
    var after := log + [c];
    forall i, v | 0 <= i < |after| && v in after[i].manifest.serving && Withdrawable(w, v)
      ensures v in c.manifest.serving + c.manifest.withdrawn || Withdrew(after, acked, i, v)
    {
      if i < |log| {
        var last := log[|log| - 1].manifest;
        assert after[i] == log[i];
        if v in last.serving + last.withdrawn {
          assert after[|log| - 1] == log[|log| - 1];
          assert i == |log| - 1 ==> v in last.serving;
        } else {
          WithdrewKept(log, c, acked, i, v);
        }
      }
    }
  }

  lemma ExpectedCommit(w: World, log: seq<Commitment>, c: Commitment, acked: set<OutboxName>)
    requires ExpectedKept(w, log) && (log != [] ==> HandsOver(w, log[|log| - 1].manifest, acked, c.draft))
    requires c.manifest.serving == c.draft.serving && c.manifest.expected == c.draft.expected && c.manifest.tombstone == c.draft.tombstone
    ensures ExpectedKept(w, log + [c])
  {
    var after := log + [c];
    forall i | 1 <= i < |after|
      ensures ExpectsAll(w, after[i - 1].manifest, after[i].manifest.serving, after[i].manifest.expected, after[i].manifest.tombstone)
    {
      assert after[i - 1] == log[i - 1] && (i < |log| ==> after[i] == log[i]);
    }
  }

  lemma CommitRemembers(w: World, s: System, after: System, t: nat, own: Ownership)
    requires Withdrawing(w, s) && WroteCommit(w, s, after, t, own) && after.acked == s.acked
    ensures Remembered(w, after.log, after.acked) && ExpectedKept(w, after.log)
    ensures forall u :: PassHandsOver(w, after, At(after, u))
  {
    var c := after.log[|s.log|];
    assert PassHandsOver(w, s, At(s, t));
    RememberedCommit(w, s.log, c, s.acked);
    ExpectedCommit(w, s.log, c, s.acked);
    forall u ensures PassHandsOver(w, after, At(after, u)) {
      assert CopyHolds(s.store, At(s, u));
      assert u != t ==> At(after, u) == At(s, u);
    }
  }

  lemma CommitWithdrawing(w: World, s: System, step: Step)
    requires Withdrawing(w, s) && step.Commit?
    ensures Remembered(w, Next(w, s, step).log, Next(w, s, step).acked) && ExpectedKept(w, Next(w, s, step).log)
    ensures forall u :: PassHandsOver(w, Next(w, s, step), At(Next(w, s, step), u))
  {
    var after := Next(w, s, step);
    CommitShape(w, s, step);
    CommitAcked(w, s, step);
    if Quiet(s, after, step.pass) {
      FailedCommits(w, s, step);
    } else {
      CommitRemembers(w, s, after, step.pass, after.store.owner.value);
    }
  }

  lemma CommitAcked(w: World, s: System, step: Step)
    requires step.Commit?
    ensures Next(w, s, step).acked == s.acked
  {
  }

  lemma FailedCommits(w: World, s: System, step: Step)
    requires step.Commit? && Quiet(s, Next(w, s, step), step.pass) && Next(w, s, step).acked == s.acked
    requires forall u :: PassHandsOver(w, s, At(s, u))
    ensures forall u :: PassHandsOver(w, Next(w, s, step), At(Next(w, s, step), u))
  {
    forall u ensures PassHandsOver(w, Next(w, s, step), At(Next(w, s, step), u)) {
      assert PassHandsOver(w, s, At(s, u));
      FailedCommit(w, s, step, u);
    }
  }

  lemma FailedCommit(w: World, s: System, step: Step, u: nat)
    requires step.Commit? && Quiet(s, Next(w, s, step), step.pass) && Next(w, s, step).acked == s.acked
    requires PassHandsOver(w, s, At(s, u))
    ensures PassHandsOver(w, Next(w, s, step), At(Next(w, s, step), u))
  {
    CommitEnds(w, s, step, u);
    HandsOverKept(w, s, Next(w, s, step), At(s, u), At(Next(w, s, step), u));
  }

  lemma CommitEnds(w: World, s: System, step: Step, u: nat)
    requires step.Commit? && Quiet(s, Next(w, s, step), step.pass)
    ensures At(Next(w, s, step), u).Idle? || At(Next(w, s, step), u) == At(s, u)
  {
  }

  lemma WithdrawingNext(w: World, s: System, step: Step)
    requires Sound(w) && Withdrawing(w, s)
    ensures Withdrawing(w, Next(w, s, step))
  {
    var after := Next(w, s, step);
    ContentNext(w, s, step);
    AcksNext(w, s, step);
    if step.Commit? {
      CommitWithdrawing(w, s, step);
    } else {
      OtherWithdrawing(w, s, step);
    }
  }

  lemma OtherWithdrawing(w: World, s: System, step: Step)
    requires Withdrawing(w, s) && !step.Commit?
    ensures Remembered(w, Next(w, s, step).log, Next(w, s, step).acked) && ExpectedKept(w, Next(w, s, step).log)
    ensures forall u :: PassHandsOver(w, Next(w, s, step), At(Next(w, s, step), u))
  {
    AcksNext(w, s, step);
    OtherStep(w, s, step, 0);
    RememberedMore(w, s.log, s.acked, Next(w, s, step).acked);
    forall u ensures PassHandsOver(w, Next(w, s, step), At(Next(w, s, step), u)) {
      OtherStep(w, s, step, u);
    }
  }

  lemma OtherStep(w: World, s: System, step: Step, u: nat)
    requires Withdrawing(w, s) && !step.Commit?
    ensures PassHandsOver(w, Next(w, s, step), At(Next(w, s, step), u)) && Next(w, s, step).log == s.log
  {
    assert PassHandsOver(w, s, At(s, u));
    if !step.Compile? {
      DraftKept(w, s, step, u);
      HandsOverKept(w, s, Next(w, s, step), At(s, u), At(Next(w, s, step), u));
    } else if u == step.pass {
      CompileHandsOver(w, s, step);
    } else {
      OthersKeptByCompile(w, s, step, u);
    }
  }

  /**
   * In every reachable state, each local configured shard that some committed
   * revision served is served or withdrawn by the active manifest, or has
   * acknowledged a withdrawal sent after that revision; and a withdrawal of the
   * zone stays expected in every region the zone was expected in.
   */
  lemma {:induction false} WithdrawalsRemembered(w: World, steps: seq<Step>)
    requires Sound(w)
    ensures Withdrawing(w, After(w, steps))
  {
    if steps != [] {
      WithdrawalsRemembered(w, steps[..|steps| - 1]);
      WithdrawingNext(w, After(w, steps[..|steps| - 1]), steps[|steps| - 1]);
    }
  }
}
