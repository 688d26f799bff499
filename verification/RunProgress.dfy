/** Progress: from every reachable state a pass that nobody disturbs commits what it compiled. */
module RunProgress {
  import opened Text
  import opened Sources
  import opened Publication
  import opened Runs
  import opened RunProofs
  import opened RunStaging

  /** The state after more steps. */
  function Continue(w: World, s: System, more: seq<Step>): System
    decreases |more|
  {
    if more == [] then s else Continue(w, Next(w, s, more[0]), more[1..])
  }

  lemma {:induction false} ContinueConcat(w: World, s: System, a: seq<Step>, b: seq<Step>)
    ensures Continue(w, s, a + b) == Continue(w, Continue(w, s, a), b)
    decreases |a|
  {
    if a == [] {
      assert a + b == b;
    } else {
      ContinueConcat(w, Next(w, s, a[0]), a[1..], b);
      assert (a + b)[1..] == a[1..] + b;
    }
  }

  lemma ContinueOne(w: World, s: System, step: Step)
    ensures Continue(w, s, [step]) == Next(w, s, step)
  {
    assert [step][1..] == [];
  }

  lemma {:induction false} AfterContinues(w: World, steps: seq<Step>, more: seq<Step>)
    ensures After(w, steps + more) == Continue(w, After(w, steps), more)
    decreases |more|
  {
    if more == [] {
      assert steps + more == steps;
    } else {
      assert steps + more == steps + [more[0]] + more[1..];
      assert (steps + [more[0]])[..|steps|] == steps;
      AfterContinues(w, steps + [more[0]], more[1..]);
    }
  }

  /** The record is held in `epoch` and remembers the state `hash`. */
  predicate HeldIn(s: System, epoch: nat, hash: string) {
    s.store.owner.Some? && s.store.owner.value.epoch == epoch && s.store.owner.value.lastHash == hash
  }

  /** A step with which pass `t` brings its draft to the commit. */
  predicate Finishes(x: Step, t: nat) {
    (x.Reserve? || x.StageChunk? || x.StageManifest? || x.StageOutbox? || x.Commit?) && x.pass == t
  }

  /** A step of pass `t` and of no other: reading, holding and compiling, or finishing. */
  predicate OwnStep(x: Step, t: nat, tombstone: bool) {
    || ((x.Get? || x.Keep? || (x.Compile? && x.tombstone == tombstone)) && x.pass == t)
    || Finishes(x, t)
  }

  /** Only the pass itself and what it stages has changed. */
  ghost predicate Undisturbed(s: System, after: System) {
    after.log == s.log && after.store.version == s.store.version && after.store.owner == s.store.owner
  }

  // ----- the phases of a pass -----------------------------------------------

  /** Reading the record, keeping it and compiling. */
  lemma Drafts(w: World, s: System, t: nat, input: Input, tombstone: bool, bound: set<Target>) returns (more: seq<Step>)
    requires Staging(w, s) && s.store.owner.Some?
    requires Prepare(w, s.store, s.store.owner.value, input, tombstone, bound).Some?
    ensures var after := Continue(w, s, more);
            && Undisturbed(s, after) && Staging(w, after)
            && At(after, t) == Drafted(s.store.version, s.store.owner.value,
                                       Prepare(w, s.store, s.store.owner.value, input, tombstone, bound).value)
    ensures forall x :: x in more ==> OwnStep(x, t, tombstone)
  {
    var own := s.store.owner.value;
    var a, b, c := Get(t), Keep(t, own.holder), Step.Compile(t, input, tombstone, bound);
    Holds(w, s, t);
    var held := Continue(w, s, [a] + [b]);
    Compiles(w, held, t, input, tombstone, bound);
    StagingNext(w, held, c);
    more := [a] + [b] + [c];
    ContinueConcat(w, s, [a] + [b], [c]);
    ContinueOne(w, held, c);
  }

  lemma Holds(w: World, s: System, t: nat)
    requires Staging(w, s) && s.store.owner.Some?
    ensures var after := Continue(w, s, [Get(t)] + [Keep(t, s.store.owner.value.holder)]);
            && after.store == s.store && after.log == s.log && Staging(w, after)
            && At(after, t) == Held(s.store.version, s.store.owner.value) && OthersKept(s, after, t)
  {
    var a, b := Get(t), Keep(t, s.store.owner.value.holder);
    StagingNext(w, s, a);
    StagingNext(w, Next(w, s, a), b);
    ContinueConcat(w, s, [a], [b]);
    ContinueOne(w, s, a);
    ContinueOne(w, Next(w, s, a), b);
  }

  lemma Compiles(w: World, s: System, t: nat, input: Input, tombstone: bool, bound: set<Target>)
    requires At(s, t).Held? && Prepare(w, s.store, At(s, t).own, input, tombstone, bound).Some?
    ensures var after := Next(w, s, Step.Compile(t, input, tombstone, bound));
            && after.store == s.store && after.log == s.log
            && At(after, t) == Drafted(At(s, t).version, At(s, t).own, Prepare(w, s.store, At(s, t).own, input, tombstone, bound).value)
  {
  }

  lemma Reserves(w: World, s: System, t: nat, now: int)
    requires At(s, t).Drafted? && At(s, t).version == s.store.version && s.store.owner.Some?
    ensures var after, p := Next(w, s, Step.Reserve(t, now)), At(s, t);
            && after.log == s.log && after.store.version == s.store.version + 1 && after.store.owner.Some?
            && At(after, t) == Reserved(p.version + 1, ReservedBy(w, p.own, now), p.draft, Reservation(p.own), 0)
  {
  }

  lemma StagesChunk(w: World, s: System, t: nat)
    requires Staging(w, s) && At(s, t).Reserved? && At(s, t).staged < |Parts(w, At(s, t).draft)|
    ensures var after := Next(w, s, StageChunk(t));
            Undisturbed(s, after) && Staging(w, after) && At(after, t) == At(s, t).(staged := At(s, t).staged + 1)
  {
    assert OnlyOwn(s, At(s, t));
    StagingNext(w, s, StageChunk(t));
  }

  /** Staging the chunks that are left. */
  lemma {:induction false} StagesChunks(w: World, s: System, t: nat, left: nat) returns (more: seq<Step>)
    requires Staging(w, s) && At(s, t).Reserved? && At(s, t).staged + left == |Parts(w, At(s, t).draft)|
    ensures var after := Continue(w, s, more);
            Undisturbed(s, after) && Staging(w, after) && At(after, t) == At(s, t).(staged := |Parts(w, At(s, t).draft)|)
    ensures forall x :: x in more ==> Finishes(x, t)
    decreases left
  {
    if left == 0 {
      more := [];
    } else {
      StagesChunk(w, s, t);
      var rest := StagesChunks(w, Next(w, s, StageChunk(t)), t, left - 1);
      more := [StageChunk(t)] + rest;
      ContinueOne(w, s, StageChunk(t));
      ContinueConcat(w, s, [StageChunk(t)], rest);
    }
  }

  lemma StagesManifest(w: World, s: System, t: nat)
    requires Staging(w, s) && At(s, t).Reserved? && At(s, t).staged == |Parts(w, At(s, t).draft)|
    ensures var after, p := Next(w, s, StageManifest(t)), At(s, t);
            Undisturbed(s, after) && Staging(w, after) && At(after, t) == Staged(p.version, p.own, p.draft, p.revision, {})
  {
    assert OnlyOwn(s, At(s, t));
    StagingNext(w, s, StageManifest(t));
  }

  lemma SendsOne(w: World, s: System, t: nat, v: Target)
    requires At(s, t).Staged? && v in At(s, t).draft.serving + At(s, t).draft.withdrawn
    ensures var after := Next(w, s, StageOutbox(t, v));
            Undisturbed(s, after) && At(after, t) == At(s, t).(sent := At(s, t).sent + {v})
  {
  }

  /** Staging the outboxes of `left`. */
  lemma {:induction false} SendsAll(w: World, s: System, t: nat, left: set<Target>) returns (more: seq<Step>)
    requires At(s, t).Staged? && left <= At(s, t).draft.serving + At(s, t).draft.withdrawn
    ensures var after := Continue(w, s, more);
            Undisturbed(s, after) && At(after, t) == At(s, t).(sent := At(s, t).sent + left)
    ensures forall x :: x in more ==> Finishes(x, t)
    decreases |left|
  {
    if left == {} {
      more := [];
      assert At(s, t).sent + {} == At(s, t).sent;
    } else {
      var v :| v in left;
      SendsOne(w, s, t, v);
      var rest := SendsAll(w, Next(w, s, StageOutbox(t, v)), t, left - {v});
      more := [StageOutbox(t, v)] + rest;
      ContinueOne(w, s, StageOutbox(t, v));
      ContinueConcat(w, s, [StageOutbox(t, v)], rest);
      assert At(s, t).sent + {v} + (left - {v}) == At(s, t).sent + left;
    }
  }

  function CommitmentOf(w: World, epoch: nat, revision: nat, d: Draft): Commitment {
    Commitment(Id(epoch, revision), ManifestOf(w, Id(epoch, revision), d), d)
  }

  lemma Commits(w: World, s: System, t: nat, now: int)
    requires s.store.owner.Some? && At(s, t).Staged? && At(s, t).version == s.store.version
    requires At(s, t).sent == At(s, t).draft.serving + At(s, t).draft.withdrawn
    ensures Next(w, s, Step.Commit(t, now)).log == s.log + [CommitmentOf(w, At(s, t).own.epoch, At(s, t).revision, At(s, t).draft)]
    ensures HeldIn(Next(w, s, Step.Commit(t, now)), At(s, t).own.epoch, At(s, t).draft.stateHash)
  {
  }

  // ----- a whole pass -------------------------------------------------------

  /** From complete chunks to the commit. */
  lemma FinishCommits(w: World, s: System, t: nat, now: int) returns (more: seq<Step>)
    requires Staging(w, s) && s.store.owner.Some? && At(s, t).Reserved?
    requires At(s, t).staged == |Parts(w, At(s, t).draft)| && At(s, t).version == s.store.version
    ensures Continue(w, s, more).log == s.log + [CommitmentOf(w, At(s, t).own.epoch, At(s, t).revision, At(s, t).draft)]
    ensures HeldIn(Continue(w, s, more), At(s, t).own.epoch, At(s, t).draft.stateHash)
    ensures forall x :: x in more ==> Finishes(x, t)
  {
    StagesManifest(w, s, t);
    var a := Next(w, s, StageManifest(t));
    var outboxes := SendsAll(w, a, t, At(s, t).draft.serving + At(s, t).draft.withdrawn);
    var b := Continue(w, a, outboxes);
    assert {} + (At(s, t).draft.serving + At(s, t).draft.withdrawn) == At(s, t).draft.serving + At(s, t).draft.withdrawn;
    Commits(w, b, t, now);
    more := [StageManifest(t)] + (outboxes + [Step.Commit(t, now)]);
    ContinueOne(w, s, StageManifest(t));
    ContinueConcat(w, s, [StageManifest(t)], outboxes + [Step.Commit(t, now)]);
    ContinueConcat(w, a, outboxes, [Step.Commit(t, now)]);
    ContinueOne(w, b, Step.Commit(t, now));
  }

  /** From a reservation that is still current to the commit. */
  lemma ReservationCommits(w: World, s: System, t: nat, now: int) returns (more: seq<Step>)
    requires Staging(w, s) && s.store.owner.Some?
    requires At(s, t).Reserved? && At(s, t).staged <= |Parts(w, At(s, t).draft)| && At(s, t).version == s.store.version
    ensures Continue(w, s, more).log == s.log + [CommitmentOf(w, At(s, t).own.epoch, At(s, t).revision, At(s, t).draft)]
    ensures HeldIn(Continue(w, s, more), At(s, t).own.epoch, At(s, t).draft.stateHash)
    ensures forall x :: x in more ==> Finishes(x, t)
  {
    var chunks := StagesChunks(w, s, t, |Parts(w, At(s, t).draft)| - At(s, t).staged);
    var rest := FinishCommits(w, Continue(w, s, chunks), t, now);
    more := chunks + rest;
    ContinueConcat(w, s, chunks, rest);
  }

  lemma PassCommits(w: World, s: System, t: nat, input: Input, tombstone: bool, bound: set<Target>, now: int) returns (more: seq<Step>)
    requires Staging(w, s) && s.store.owner.Some?
    requires Prepare(w, s.store, s.store.owner.value, input, tombstone, bound).Some?
    ensures var own, d := s.store.owner.value, Prepare(w, s.store, s.store.owner.value, input, tombstone, bound).value;
            Continue(w, s, more).log == s.log + [CommitmentOf(w, own.epoch, Reservation(own), d)]
    ensures HeldIn(Continue(w, s, more), s.store.owner.value.epoch,
                   Prepare(w, s.store, s.store.owner.value, input, tombstone, bound).value.stateHash)
    ensures forall x :: x in more ==> OwnStep(x, t, tombstone)
  {
    var drafts := Drafts(w, s, t, input, tombstone, bound);
    var a := Continue(w, s, drafts);
    Reserves(w, a, t, now);
    StagingNext(w, a, Step.Reserve(t, now));
    var b := Next(w, a, Step.Reserve(t, now));
    var rest := ReservationCommits(w, b, t, now);
    more := drafts + ([Step.Reserve(t, now)] + rest);
    ContinueConcat(w, s, drafts, [Step.Reserve(t, now)] + rest);
    ContinueConcat(w, a, [Step.Reserve(t, now)], rest);
    ContinueOne(w, a, Step.Reserve(t, now));
  }

  /**
   * From every reachable state, if the zone would be published, some
   * continuation of one pass's own steps commits exactly that draft under the
   * next revision: stale copies, crashed passes and leftover artifacts of
   * others never stand in the way.
   */
  lemma UndisturbedPassCommits(w: World, steps: seq<Step>, t: nat, input: Input, tombstone: bool, bound: set<Target>, now: int) returns (more: seq<Step>)
    requires After(w, steps).store.owner.Some?
    requires Prepare(w, After(w, steps).store, After(w, steps).store.owner.value, input, tombstone, bound).Some?
    ensures var s := After(w, steps);
            var own, d := s.store.owner.value, Prepare(w, s.store, s.store.owner.value, input, tombstone, bound).value;
            After(w, steps + more).log == s.log + [CommitmentOf(w, own.epoch, Reservation(own), d)]
    ensures forall x :: x in more ==> OwnStep(x, t, tombstone)
  {
    RunsKeepStaging(w, steps);
    more := PassCommits(w, After(w, steps), t, input, tombstone, bound, now);
    AfterContinues(w, steps, more);
  }
}
