/** A run in which the last finalizer goes while a region's active withdrawal is not acknowledged. */
module EarlyRemoval {
  import opened Text
  import opened Sources
  import opened Publication
  import opened RunProofs
  import opened RunContent
  import opened RunStaging
  import opened RunWithdrawals
  import opened RunProgress
  import opened Takeovers
  import opened Finalizers
  import opened Departures
  import opened Removal
  import opened Settling
  import Runs

  // ----- putting runs together ----------------------------------------------

  lemma {:induction false} AfterConcat(worlds: string -> World, s: System, a: seq<Step>, b: seq<Step>)
    requires Configured(worlds)
    ensures After(worlds, s, a + b) == After(worlds, After(worlds, s, a), b)
    decreases |b|
  {
    if b == [] {
      assert a + b == a;
    } else {
      AfterConcat(worlds, s, a, b[..|b| - 1]);
      AfterLast(worlds, s, a + b);
      AfterLast(worlds, After(worlds, s, a), b);
      assert (a + b)[..|a + b| - 1] == a + b[..|b| - 1];
    }
  }

  lemma AfterOne(worlds: string -> World, s: System, step: Step)
    requires Configured(worlds)
    ensures After(worlds, s, [step]) == Next(worlds, s, step)
  {
    AfterLast(worlds, s, [step]);
    assert [step][..0] == [];
  }

  lemma ThenDeleted(worlds: string -> World, s: System, steps: seq<Step>)
    requires Configured(worlds)
    ensures After(worlds, s, steps + [Delete]) == After(worlds, s, steps).(deleting := true)
  {
    AfterConcat(worlds, s, steps, [Delete]);
    AfterOne(worlds, After(worlds, s, steps), Delete);
  }

  // ----- a first publication ------------------------------------------------

  lemma FirstPrepared(w: World, input: Input, v: Target)
    requires w.regional && v.region in w.localRegions && w.compile(None, input).Some?
    ensures var p := Runs.Next(w, Runs.START, Runs.Create("holder", 0));
            && p.store.owner.Some? && p.log == []
            && var d := Prepare(w, p.store, p.store.owner.value, input, false, {v});
            d.Some? && d.value.serving == {v}
  {
    assert ServingOf(w, {v}) == {v};
    assert Desired(None, {v}, false) == {v};
  }

  /** A control plane with an empty store publishes the zone to `v`. */
  lemma FirstCommit(w: World, input: Input, v: Target) returns (xs: seq<Runs.Step>)
    requires Sound(w) && w.regional && v.region in w.localRegions && w.compile(None, input).Some?
    ensures var q := Continue(w, Runs.START, xs); Reachable(w, q) && q.log != [] && LastTargets(q) == {v}
    ensures forall x :: x in xs ==> x.Create? || OwnStep(x, 0, false)
  {
    var create := Runs.Create("holder", 0);
    var p := Runs.Next(w, Runs.START, create);
    FirstPrepared(w, input, v);
    RunsKeepStaging(w, []);
    StagingNext(w, Runs.START, create);
    var rest := PassCommits(w, p, 0, input, false, {v}, 0);
    xs := [create] + rest;
    ContinueConcat(w, Runs.START, [create], rest);
    ContinueOne(w, Runs.START, create);
    AfterContinues(w, [], xs);
    assert [] + xs == xs;
    ReachableAfter(w, xs);
  }

  lemma Publishes(worlds: string -> World, s: System, n: string, input: Input, v: Target) returns (more: seq<Step>, q: Runs.System)
    requires Configured(worlds) && n in s.planes && PlaneOf(s, n) == Runs.START
    requires !s.deleting && worlds(n).localRegions <= s.held && v.region in worlds(n).localRegions
    requires worlds(n).compile(None, input).Some?
    ensures After(worlds, s, more) == Became(s, n, q) && q.log != [] && LastTargets(q) == {v}
  {
    var xs := FirstCommit(worlds(n), input, v);
    q := Continue(worlds(n), PlaneOf(s, n), xs);
    more := LiftLive(worlds, s, n, xs, q);
  }

  lemma LiftLive(worlds: string -> World, s: System, n: string, xs: seq<Runs.Step>, q: Runs.System) returns (more: seq<Step>)
    requires Configured(worlds) && n in s.planes && !s.deleting && worlds(n).localRegions <= s.held
    requires (forall x :: x in xs ==> x.Create? || OwnStep(x, 0, false)) && q == Continue(worlds(n), PlaneOf(s, n), xs)
    ensures After(worlds, s, more) == Became(s, n, q)
  {
    forall i | 0 <= i < |xs| ensures ZoneAllows(worlds(n), s, xs[i]) { assert xs[i] in xs; }
    Lifted(worlds, s, n, xs);
    more := Exchanges(n, xs);
  }

  // ----- a release ----------------------------------------------------------

  lemma SettledMayRelease(w: World, p: Runs.System)
    requires Sound(w) && Reachable(w, p) && LastTombstone(p) && HeldIn(p, p.log[|p.log| - 1].id.epoch, w.hash([]))
    ensures MayRelease(w, p.store, p.store.owner.value, true)
  {
    var own := p.store.owner.value;
    PreviousLoads(w, p, own);
    PreviousRevision(w, p, own);
    ActiveManifest(w, p);
    HistoryAt(w, p.log, |p.log| - 1);
  }

  lemma HoldAllowed(worlds: string -> World, s: System, n: string, t: nat, holder: string) returns (more: seq<Step>)
    requires Configured(worlds) && n in s.planes
    ensures After(worlds, s, more) == Became(s, n, Continue(worlds(n), PlaneOf(s, n), [Runs.Get(t)] + [Runs.Keep(t, holder)]))
  {
    var xs := [Runs.Get(t)] + [Runs.Keep(t, holder)];
    Lifted(worlds, s, n, xs);
    more := Exchanges(n, xs);
  }

  /** Only pass `t` of the control plane has moved. */
  ghost predicate OnlyPass(p: Runs.System, q: Runs.System, t: nat) {
    q.log == p.log && q.store == p.store && OthersKept(p, q, t)
  }

  /** The finalizers of `n` are gone, and no other control plane has moved. */
  ghost predicate Freed(w: World, s: System, after: System, n: string) {
    && after.held == Remaining(s.held, w.localRegions, s.serving)
    && after.serving == s.serving && after.deleting == s.deleting && after.verified == s.verified
    && (forall m :: m != n ==> PlaneOf(after, m) == PlaneOf(s, m))
  }

  ghost predicate ReleasedBy(w: World, s: System, after: System, n: string, t: nat) {
    Freed(w, s, after, n) && OnlyPass(PlaneOf(s, n), PlaneOf(after, n), t)
  }

  lemma ReleaseNext(worlds: string -> World, s: System, n: string, t: nat, q: Runs.System)
    requires Configured(worlds) && s.deleting
    requires Runs.At(q, t).Held? && OnlyPass(PlaneOf(s, n), q, t)
    requires MayRelease(worlds(n), q.store, Runs.At(q, t).own, DepartureOf(q, s, n, Runs.At(q, t).own).verified)
    ensures ReleasedBy(worlds(n), s, Next(worlds, Became(s, n, q), Step.Release(n, t)), n, t)
  {
  }

  /** One pass reads the record, holds it and releases the zone. */
  lemma PassReleases(worlds: string -> World, s: System, n: string, t: nat) returns (more: seq<Step>)
    requires Configured(worlds) && n in s.planes && s.deleting && Staging(worlds(n), PlaneOf(s, n))
    requires PlaneOf(s, n).store.owner.Some?
    requires var own := PlaneOf(s, n).store.owner.value;
             MayRelease(worlds(n), PlaneOf(s, n).store, own, own.active.Some? && (n, own.active.value) in s.verified)
    ensures ReleasedBy(worlds(n), s, After(worlds, s, more), n, t)
  {
    var own := PlaneOf(s, n).store.owner.value;
    var hold := HoldAllowed(worlds, s, n, t, own.holder);
    Holds(worlds(n), PlaneOf(s, n), t);
    var q := Continue(worlds(n), PlaneOf(s, n), [Runs.Get(t)] + [Runs.Keep(t, own.holder)]);
    ReleaseNext(worlds, s, n, t, q);
    more := hold + [Step.Release(n, t)];
    AfterConcat(worlds, s, hold, [Step.Release(n, t)]);
    AfterOne(worlds, Became(s, n, q), Step.Release(n, t));
  }

  // ----- the run ------------------------------------------------------------

  /** `e` has an active withdrawal from `v` that its current holder wrote; `w` has done nothing yet. */
  ghost predicate Withdrawing(worlds: string -> World, s: System, e: string, w: string, v: Target) {
    && s.deleting && PlaneOf(s, w) == Runs.START && LastTombstone(PlaneOf(s, e)) && LastTargets(PlaneOf(s, e)) == {v}
    && HeldIn(PlaneOf(s, e), PlaneOf(s, e).log[|PlaneOf(s, e).log| - 1].id.epoch, worlds(e).hash([]))
  }

  /** The zone is held for both regions and published by `e`. */
  lemma HoldAndPublish(worlds: string -> World, s: System, e: string, w: string, input: Input, v: Target)
    returns (more: seq<Step>, q: Runs.System)
    requires Configured(worlds) && e in s.planes && e != w
    requires PlaneOf(s, e) == Runs.START && !s.deleting && s.held == {}
    requires v.region in worlds(e).localRegions && worlds(e).compile(None, input).Some?
    ensures After(worlds, s, more) == Became(s.(held := worlds(e).localRegions + worlds(w).localRegions), e, q)
    ensures q.log != [] && LastTargets(q) == {v}
  {
    var hold := Hold(e, worlds(w).localRegions);
    var a := s.(held := worlds(e).localRegions + worlds(w).localRegions);
    BothHeld(worlds, s, e, w);
    var publish;
    publish, q := Publishes(worlds, a, e, input, v);
    more := [hold] + publish;
    AfterConcat(worlds, s, [hold], publish);
    AfterOne(worlds, s, hold);
  }

  lemma BothHeld(worlds: string -> World, s: System, e: string, w: string)
    requires Configured(worlds) && !s.deleting && s.held == {}
    ensures Next(worlds, s, Hold(e, worlds(w).localRegions)) == s.(held := worlds(e).localRegions + worlds(w).localRegions)
  {
    assert {} + worlds(e).localRegions + worlds(w).localRegions == worlds(e).localRegions + worlds(w).localRegions;
  }

  lemma PublishAndDelete(worlds: string -> World, s: System, e: string, w: string, input: Input, v: Target) returns (more: seq<Step>)
    requires Configured(worlds) && e in s.planes && e != w
    requires PlaneOf(s, e) == Runs.START && !s.deleting && s.held == {}
    requires v.region in worlds(e).localRegions && worlds(e).compile(None, input).Some?
    ensures var after := After(worlds, s, more);
            && after.deleting && after.serving == s.serving && PlaneOf(after, w) == PlaneOf(s, w)
            && after.held == worlds(e).localRegions + worlds(w).localRegions
            && PlaneOf(after, e).log != [] && LastTargets(PlaneOf(after, e)) == {v}
  {
    var publish, q := HoldAndPublish(worlds, s, e, w, input, v);
    more := publish + [Delete];
    ThenDeleted(worlds, s, publish);
  }

  lemma FirstWithdrawal(worlds: string -> World, s: System, e: string, w: string, input: Input, v: Target) returns (more: seq<Step>)
    requires Configured(worlds) && e != w
    requires Reachable(worlds(e), PlaneOf(s, e)) && PlaneOf(s, w) == Runs.START
    requires s.deleting && PlaneOf(s, e).log != [] && LastTargets(PlaneOf(s, e)) == {v}
    ensures var after := After(worlds, s, more);
            Withdrawing(worlds, after, e, w, v) && after.held == s.held && after.serving == s.serving
  {
    var q;
    more, q := WithdrawsAgain(worlds, s, e, input);
  }

  /** The withdrawal is reported Published and `e` releases the zone. */
  lemma FirstRelease(worlds: string -> World, s: System, e: string, w: string, v: Target) returns (more: seq<Step>)
    requires Configured(worlds) && e != w
    requires Kept(worlds, s, e) && Withdrawing(worlds, s, e, w, v)
    ensures var after := After(worlds, s, more);
            && after.held == Remaining(s.held, worlds(e).localRegions, s.serving) && after.serving == s.serving && after.deleting
            && PlaneOf(after, w) == Runs.START && LastTombstone(PlaneOf(after, e)) && LastTargets(PlaneOf(after, e)) == {v}
  {
    var verify := Verify(e, PlaneOf(s, e).log[|PlaneOf(s, e).log| - 1].id, true);
    Verifies(worlds, s, e);
    var release := VerifiedReleases(worlds, Next(worlds, s, verify), e);
    more := [verify] + release;
    AfterConcat(worlds, s, [verify], release);
    AfterOne(worlds, s, verify);
  }

  lemma Verifies(worlds: string -> World, s: System, e: string)
    requires Configured(worlds) && PlaneOf(s, e).log != []
    ensures var id := PlaneOf(s, e).log[|PlaneOf(s, e).log| - 1].id;
            Next(worlds, s, Verify(e, id, true)) == s.(verified := s.verified + {(e, id)})
  {
    var log := PlaneOf(s, e).log;
    assert log[|log| - 1].id == log[|log| - 1].id;
  }

  lemma VerifiedReleases(worlds: string -> World, s: System, e: string) returns (more: seq<Step>)
    requires Configured(worlds) && e in s.planes && s.deleting && Reachable(worlds(e), PlaneOf(s, e)) && LastTombstone(PlaneOf(s, e))
    requires var last := PlaneOf(s, e).log[|PlaneOf(s, e).log| - 1].id;
             HeldIn(PlaneOf(s, e), last.epoch, worlds(e).hash([])) && (e, last) in s.verified
    ensures ReleasedBy(worlds(e), s, After(worlds, s, more), e, 0)
  {
    SettledMayRelease(worlds(e), PlaneOf(s, e));
    Bounds(worlds(e), PlaneOf(s, e));
    more := PassReleases(worlds, s, e, 0);
  }

  lemma Bounds(w: World, p: Runs.System)
    requires Runs.Protocol(w, p) && p.log != []
    ensures p.store.owner.Some? && p.store.owner.value.active == Some(p.log[|p.log| - 1].id)
  {
  }

  /** `w`, which never published, creates its record and releases the zone. */
  lemma LastRelease(worlds: string -> World, s: System, w: string) returns (more: seq<Step>)
    requires Configured(worlds) && s.deleting && PlaneOf(s, w) == Runs.START
    ensures Freed(worlds(w), s, After(worlds, s, more), w)
  {
    var create := Runs.Create("holder", 0);
    var p := Runs.Next(worlds(w), Runs.START, create);
    RunsKeepStaging(worlds(w), []);
    StagingNext(worlds(w), Runs.START, create);
    var a := Next(worlds, s, Exchange(w, create));
    assert a == Became(s, w, p);
    var release := PassReleases(worlds, a, w, 0);
    more := [Exchange(w, create)] + release;
    AfterConcat(worlds, s, [Exchange(w, create)], release);
    AfterOne(worlds, s, Exchange(w, create));
  }

  /** `e`, which has released, is taken over and `w` releases the last finalizers. */
  lemma TakeoverThenRelease(worlds: string -> World, a: System, e: string, w: string, input: Input) returns (more: seq<Step>)
    requires Configured(worlds) && e != w
    requires Kept(worlds, a, e) && a.deleting && PlaneOf(a, w) == Runs.START
    requires LastTombstone(PlaneOf(a, e)) && LastTargets(PlaneOf(a, e)) != {}
    ensures var after := After(worlds, a, more);
            && after.held == Remaining(a.held, worlds(w).localRegions, a.serving) && after.serving == a.serving
            && LastTombstone(PlaneOf(after, e)) && !Settled(after, e)
  {
    var again, q := WithdrawsAgain(worlds, a, e, input);
    NotVerified(worlds(e), a, e, PlaneOf(a, e), q);
    var b := Became(a, e, q);
    var last := LastRelease(worlds, b, w);
    more := again + last;
    AfterConcat(worlds, a, again, last);
  }

  /** From the withdrawal to the end: `e` releases, is taken over, and `w` releases last. */
  lemma ReleaseTakeoverRelease(worlds: string -> World, s: System, e: string, w: string, input: Input, v: Target) returns (more: seq<Step>)
    requires Configured(worlds) && e != w
    requires Kept(worlds, s, e) && Withdrawing(worlds, s, e, w, v) && s.held == worlds(e).localRegions + worlds(w).localRegions
    ensures var after := After(worlds, s, more);
            after.held == {} && after.serving == s.serving && LastTombstone(PlaneOf(after, e)) && !Settled(after, e)
  {
    var first := FirstRelease(worlds, s, e, w, v);
    KeptAlong(worlds, s, first, e);
    var rest := TakeoverThenRelease(worlds, After(worlds, s, first), e, w, input);
    more := first + rest;
    AfterConcat(worlds, s, first, rest);
  }

  /**
   * The zone can go before every region's withdrawal is settled: `e` publishes
   * to `v`, withdraws, is reported Published and releases; its record is taken
   * over and the new holder withdraws again; then `w` releases the last
   * finalizer while the second withdrawal from `v` is not acknowledged.
   */
  lemma GoneBeforeSettled(worlds: string -> World, start: System, e: string, w: string, input: Input, v: Target) returns (steps: seq<Step>)
    requires Configured(worlds) && Fresh(start) && start.held == {} && e in start.planes && w in start.planes && e != w
    requires v.region in worlds(e).localRegions && v.region in start.serving && worlds(e).compile(None, input).Some?
    ensures var s := After(worlds, start, steps);
            s.held == {} && v.region in s.serving && LastTombstone(PlaneOf(s, e)) && !Settled(s, e)
  {
    var a := PublishAndDelete(worlds, start, e, w, input, v);
    RunReaches(worlds, start, a, e);
    var b := FirstWithdrawal(worlds, After(worlds, start, a), e, w, input, v);
    AfterConcat(worlds, start, a, b);
    RunReaches(worlds, start, a + b, e);
    RunGuards(worlds, start, a + b, e);
    var c := ReleaseTakeoverRelease(worlds, After(worlds, start, a + b), e, w, input, v);
    AfterConcat(worlds, start, a + b, c);
    steps := a + b + c;
  }

  // ----- releasing with a draft in the works --------------------------------

  lemma FirstDraft(w: World, input: Input, v: Target) returns (xs: seq<Runs.Step>)
    requires w.regional && v.region in w.localRegions && w.compile(None, input).Some?
    ensures var q := Continue(w, Runs.START, xs);
            q.log == [] && q.store.owner.Some? && q.store.owner.value.active.None? && Staging(w, q) && Current(q, 0)
    ensures forall x :: x in xs ==> x.Create? || OwnStep(x, 0, false)
  {
    var create := Runs.Create("holder", 0);
    var p := Runs.Next(w, Runs.START, create);
    FirstPrepared(w, input, v);
    RunsKeepStaging(w, []);
    StagingNext(w, Runs.START, create);
    var rest := Drafts(w, p, 0, input, false, {v});
    xs := [create] + rest;
    ContinueConcat(w, Runs.START, [create], rest);
    ContinueOne(w, Runs.START, create);
  }

  /** Nothing is published yet, and pass 0 holds a draft on a current copy. */
  ghost predicate Drafting(w: World, p: Runs.System) {
    p.log == [] && p.store.owner.Some? && p.store.owner.value.active.None? && Staging(w, p) && Current(p, 0)
  }

  lemma HoldAndDraft(worlds: string -> World, s: System, e: string, input: Input, v: Target) returns (more: seq<Step>, q: Runs.System)
    requires Configured(worlds) && e in s.planes && PlaneOf(s, e) == Runs.START
    requires !s.deleting && s.held == {} && v.region in worlds(e).localRegions && worlds(e).compile(None, input).Some?
    ensures After(worlds, s, more) == Became(s.(held := worlds(e).localRegions), e, q) && Drafting(worlds(e), q)
  {
    var hold := Hold(e, {});
    var a := s.(held := worlds(e).localRegions);
    OneHeld(worlds, s, e);
    var xs := FirstDraft(worlds(e), input, v);
    q := Continue(worlds(e), PlaneOf(s, e), xs);
    var draft := LiftLive(worlds, a, e, xs, q);
    more := [hold] + draft;
    AfterConcat(worlds, s, [hold], draft);
    AfterOne(worlds, s, hold);
  }

  lemma OneHeld(worlds: string -> World, s: System, e: string)
    requires Configured(worlds) && !s.deleting && s.held == {}
    ensures Next(worlds, s, Hold(e, {})) == s.(held := worlds(e).localRegions)
  {
    assert {} + worlds(e).localRegions + {} == worlds(e).localRegions;
  }

  lemma DraftAndDelete(worlds: string -> World, s: System, e: string, input: Input, v: Target) returns (more: seq<Step>)
    requires Configured(worlds) && e in s.planes && PlaneOf(s, e) == Runs.START
    requires !s.deleting && s.held == {} && v.region in worlds(e).localRegions && worlds(e).compile(None, input).Some?
    ensures var after := After(worlds, s, more);
            && after.deleting && after.held == worlds(e).localRegions && after.serving == s.serving
            && Drafting(worlds(e), PlaneOf(after, e))
  {
    var draft, q := HoldAndDraft(worlds, s, e, input, v);
    more := draft + [Delete];
    ThenDeleted(worlds, s, draft);
  }

  lemma ReleaseThenPublish(worlds: string -> World, s: System, e: string) returns (more: seq<Step>)
    requires Configured(worlds) && Reachable(worlds(e), PlaneOf(s, e))
    requires s.deleting && s.held == worlds(e).localRegions && Drafting(worlds(e), PlaneOf(s, e))
    ensures var after := After(worlds, s, more); after.held == {} && after.serving == s.serving && PlaneOf(after, e).log != []
  {
    var release := PassReleases(worlds, s, e, 1);
    var a := After(worlds, s, release);
    ReachesAlong(worlds, s, release, e);
    assert Current(PlaneOf(a, e), 0);
    var publish := DraftPublishes(worlds, a, e, 0);
    more := release + publish;
    AfterConcat(worlds, s, release, publish);
  }

  /**
   * A control plane can publish a zone after releasing it: a pass has drafted
   * the first revision when the zone is deleted, another pass finds nothing
   * published and releases the last finalizer, and the first one commits.
   */
  lemma PublishedAfterRelease(worlds: string -> World, start: System, e: string, input: Input, v: Target) returns (steps: seq<Step>)
    requires Configured(worlds) && Fresh(start) && start.held == {} && e in start.planes
    requires v.region in worlds(e).localRegions && worlds(e).compile(None, input).Some?
    ensures var s := After(worlds, start, steps); s.held == {} && s.serving == start.serving && PlaneOf(s, e).log != []
  {
    var a := DraftAndDelete(worlds, start, e, input, v);
    RunReaches(worlds, start, a, e);
    var b := ReleaseThenPublish(worlds, After(worlds, start, a), e);
    AfterConcat(worlds, start, a, b);
    steps := a + b;
  }
}
