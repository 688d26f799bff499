/** What the regional finalizers of a deleted zone guarantee, over every run of its control planes. */
module Departures {
  import opened Text
  import opened Publication
  import opened RunProofs
  import opened RunContent
  import opened RunWithdrawals
  import opened RunTombstones
  import opened Takeovers
  import opened Finalizers
  import Runs

  // ----- one control plane --------------------------------------------------

  ghost predicate NoTombstone(log: seq<Runs.Commitment>) {
    forall i :: 0 <= i < |log| ==> !log[i].manifest.tombstone
  }

  ghost predicate TombstonesLast(log: seq<Runs.Commitment>) {
    forall i, j :: 0 <= i <= j < |log| && log[i].manifest.tombstone ==> log[j].manifest.tombstone
  }

  /** A draft that can still be committed withdraws a deleted zone, or nothing was withdrawn yet. */
  ghost predicate DraftDated(p: Runs.System, t: nat, deleting: bool) {
    Current(p, t) ==> if Runs.At(p, t).draft.tombstone then deleting else NoTombstone(p.log)
  }

  ghost predicate Dated(p: Runs.System, deleting: bool) {
    && (forall t :: DraftDated(p, t, deleting))
    && (NoTombstone(p.log) || deleting)
    && TombstonesLast(p.log)
  }

  predicate CompilesAs(x: Runs.Step, deleting: bool) {
    x.Compile? ==> x.tombstone == deleting
  }

  lemma CompileDated(w: World, p: Runs.System, x: Runs.Step, deleting: bool)
    requires Reachable(w, p) && Dated(p, deleting) && x.Compile? && CompilesAs(x, deleting)
    ensures DraftDated(Runs.Next(w, p, x), x.pass, deleting)
  {
    assert DraftDated(p, x.pass, deleting);
    LogKept(w, p, x);
    CompileShape(w, p, x);
    var before, q := Runs.At(p, x.pass), Runs.At(Runs.Next(w, p, x), x.pass);
    if before.Held? && q.Drafted? {
      PreparedAim(w, p.store, before.own, x.input, x.tombstone, x.bound);
    }
  }

  lemma OtherDated(w: World, p: Runs.System, x: Runs.Step, deleting: bool, t: nat)
    requires Reachable(w, p) && Dated(p, deleting) && !x.Commit? && CompilesAs(x, deleting)
    ensures DraftDated(Runs.Next(w, p, x), t, deleting)
  {
    assert DraftDated(p, t, deleting);
    if !x.Compile? {
      DraftKept(w, p, x, t);
    } else if t == x.pass {
      CompileDated(w, p, x, deleting);
    } else {
      OthersKeptByCompile(w, p, x, t);
    }
  }

  lemma CommitDatedPass(w: World, p: Runs.System, x: Runs.Step, deleting: bool, t: nat)
    requires Runs.Protocol(w, p) && DraftDated(p, t, deleting) && x.Commit?
    ensures DraftDated(Runs.Next(w, p, x), t, deleting)
  {
    assert Runs.CopyHolds(p.store, Runs.At(p, t));
    CommitShape(w, p, x);
    if Quiet(p, Runs.Next(w, p, x), x.pass) { CommitEnds(w, p, x, t); }
  }

  lemma CommitDatedLog(w: World, p: Runs.System, x: Runs.Step, deleting: bool)
    requires x.Commit? && DraftDated(p, x.pass, deleting)
    requires (NoTombstone(p.log) || deleting) && TombstonesLast(p.log)
    ensures var log := Runs.Next(w, p, x).log; (NoTombstone(log) || deleting) && TombstonesLast(log)
  {
    CommitShape(w, p, x);
  }

  lemma CommitDated(w: World, p: Runs.System, x: Runs.Step, deleting: bool)
    requires Runs.Protocol(w, p) && Dated(p, deleting) && x.Commit?
    ensures Dated(Runs.Next(w, p, x), deleting)
  {
    assert DraftDated(p, x.pass, deleting);
    CommitDatedLog(w, p, x, deleting);
    forall t ensures DraftDated(Runs.Next(w, p, x), t, deleting) {
      assert DraftDated(p, t, deleting);
      CommitDatedPass(w, p, x, deleting, t);
    }
  }

  lemma DatedNext(w: World, p: Runs.System, x: Runs.Step, deleting: bool)
    requires Reachable(w, p) && Dated(p, deleting) && CompilesAs(x, deleting)
    ensures Dated(Runs.Next(w, p, x), deleting)
  {
    if x.Commit? {
      CommitDated(w, p, x, deleting);
    } else {
      LogKept(w, p, x);
      forall t ensures DraftDated(Runs.Next(w, p, x), t, deleting) { OtherDated(w, p, x, deleting, t); }
    }
  }

  lemma DatedByDeletion(p: Runs.System)
    requires Dated(p, false)
    ensures Dated(p, true)
  {
    forall t ensures DraftDated(p, t, true) { assert DraftDated(p, t, false); }
  }

  lemma IdleMeans(p: Runs.System)
    ensures Idle(p) <==> p.log == [] && forall t :: !Current(p, t)
  {
    if p.log == [] && forall t :: !Current(p, t) {
      forall t | t in p.passes ensures HasDraft(p.passes[t]) ==> p.passes[t].version != p.store.version {
        assert !Current(p, t) && Runs.At(p, t) == p.passes[t];
      }
    }
  }

  /** With nothing published or in the works, only a live compilation changes that. */
  lemma IdleNext(w: World, p: Runs.System, x: Runs.Step)
    requires w.regional && Reachable(w, p) && Idle(p) && (x.Compile? ==> x.tombstone)
    ensures Idle(Runs.Next(w, p, x))
  {
    var after := Runs.Next(w, p, x);
    IdleMeans(p);
    IdleMeans(after);
    if x.Commit? {
      assert !Current(p, x.pass);
      CommitShape(w, p, x);
      forall t ensures !Current(after, t) {
        assert !Current(p, t);
        CommitEnds(w, p, x, t);
      }
    } else {
      LogKept(w, p, x);
      forall t ensures !Current(after, t) { IdlePass(w, p, x, t); }
    }
  }

  lemma IdlePass(w: World, p: Runs.System, x: Runs.Step, t: nat)
    requires w.regional && Reachable(w, p) && p.log == [] && !Current(p, t) && !x.Commit? && (x.Compile? ==> x.tombstone)
    ensures !Current(Runs.Next(w, p, x), t)
  {
    if !x.Compile? {
      DraftKept(w, p, x, t);
    } else if t == x.pass {
      CompileShape(w, p, x);
      var before := Runs.At(p, t);
      assert Known(p, before);
      if before.Held? && Prepare(w, p.store, before.own, x.input, true, x.bound).Some? {
        PreparedAim(w, p.store, before.own, x.input, true, x.bound);
      }
    } else {
      OthersKeptByCompile(w, p, x, t);
    }
  }

  /** A log only grows. */
  // ----- all control planes -------------------------------------------------

  /** The log holds the withdrawal `id`, without targets or reported Published, and only withdrawals since. */
  ghost predicate WithdrawnSince(log: seq<Runs.Commitment>, id: Id, verified: bool) {
    exists i :: 0 <= i < |log| && WithdrawnAt(log, i, id, verified)
  }

  ghost predicate WithdrawnAt(log: seq<Runs.Commitment>, i: nat, id: Id, verified: bool)
    requires i < |log|
  {
    && log[i].id == id
    && (log[i].manifest.serving == {} || verified)
    && forall j :: i <= j < |log| ==> log[j].manifest.tombstone
  }

  /** A release was made on a withdrawal, or on a copy that named no publication; the latter is final when the control plane was idle. */
  ghost predicate Justified(p: Runs.System, d: Departure) {
    match d.active
    case Some(id) => WithdrawnSince(p.log, id, d.verified)
    case None => d.idle ==> Idle(p)
  }

  ghost predicate Departed(s: System, n: string) {
    exists k :: 0 <= k < |s.departures| && s.departures[k].plane == n
  }

  /** A control plane that has entered the zone holds its regions until it releases them. */
  ghost predicate Locked(w: World, s: System, n: string, p: Runs.System) {
    Idle(p) || Departed(s, n) || forall r :: r in w.localRegions && r in s.serving ==> r in s.held
  }

  ghost predicate PlaneGuarded(w: World, s: System, n: string, p: Runs.System) {
    && Dated(p, s.deleting) && Locked(w, s, n, p)
    && (forall k :: 0 <= k < |s.departures| && s.departures[k].plane == n ==> s.deleting && Justified(p, s.departures[k]))
    && (forall id :: (n, id) in s.verified ==> Committed(p.log, id))
  }

  // ----- an exchange --------------------------------------------------------

  lemma JustifiedNext(w: World, p: Runs.System, x: Runs.Step, d: Departure)
    requires w.regional && Reachable(w, p) && Justified(p, d) && CompilesAs(x, true)
    requires Dated(Runs.Next(w, p, x), true)
    ensures Justified(Runs.Next(w, p, x), d)
  {
    LogOnlyGrows(w, p, x);
    match d.active
    case None => if d.idle { IdleNext(w, p, x); }
    case Some(id) =>
      var i :| 0 <= i < |p.log| && WithdrawnAt(p.log, i, id, d.verified);
      assert WithdrawnAt(Runs.Next(w, p, x).log, i, id, d.verified);
  }

  lemma VerifiedNext(w: World, p: Runs.System, x: Runs.Step, id: Id)
    requires Committed(p.log, id)
    ensures Committed(Runs.Next(w, p, x).log, id)
  {
    LogOnlyGrows(w, p, x);
    var i :| 0 <= i < |p.log| && p.log[i].id == id;
    assert Runs.Next(w, p, x).log[i].id == id;
  }

  lemma LockedNext(w: World, s: System, n: string, p: Runs.System, x: Runs.Step)
    requires w.regional && Reachable(w, p) && Locked(w, s, n, p) && ZoneAllows(w, s, x)
    ensures Locked(w, s, n, Runs.Next(w, p, x))
  {
    if Idle(p) && !(x.Compile? && !x.tombstone) {
      IdleNext(w, p, x);
    }
  }

  lemma ExchangeGuards(w: World, s: System, n: string, p: Runs.System, x: Runs.Step)
    requires w.regional && Reachable(w, p) && PlaneGuarded(w, s, n, p) && ZoneAllows(w, s, x)
    ensures PlaneGuarded(w, s, n, Runs.Next(w, p, x))
  {
    DatedNext(w, p, x, s.deleting);
    LockedNext(w, s, n, p, x);
    forall k | 0 <= k < |s.departures| && s.departures[k].plane == n
      ensures s.deleting && Justified(Runs.Next(w, p, x), s.departures[k])
    {
      JustifiedNext(w, p, x, s.departures[k]);
    }
    forall id | (n, id) in s.verified ensures Committed(Runs.Next(w, p, x).log, id) { VerifiedNext(w, p, x, id); }
  }

  // ----- a release ----------------------------------------------------------

  /** The manifest a pass released on is one its control plane committed. */
  lemma ReleaseJustified(w: World, s: System, n: string, p: Runs.System, t: nat)
    requires Tidy(w, p) && TombstonesLast(p.log) && Runs.At(p, t).Held?
    requires MayRelease(w, p.store, Runs.At(p, t).own, DepartureOf(p, s, n, Runs.At(p, t).own).verified)
    ensures Justified(p, DepartureOf(p, s, n, Runs.At(p, t).own))
  {
    var own, d := Runs.At(p, t).own, DepartureOf(p, s, n, Runs.At(p, t).own);
    assert Known(p, Runs.At(p, t));
    if own.active.Some? {
      var i :| 0 <= i < |p.log| && p.log[i].id == own.active.value;
      assert p.store.manifests[p.log[i].id] == p.log[i].manifest;
      assert WithdrawnAt(p.log, i, own.active.value, d.verified);
    }
  }

  lemma LockedAfterRelease(w: World, s: System, after: System, n: string, p: Runs.System, own: set<Region>, d: Departure)
    requires Locked(w, s, n, p) && (d.plane == n || own !! w.localRegions)
    requires after.held == Remaining(s.held, own, s.serving) && after.serving == s.serving && after.departures == s.departures + [d]
    ensures Locked(w, after, n, p)
  {
    if d.plane == n {
      assert after.departures[|s.departures|] == d;
    } else if Departed(s, n) {
      var k :| 0 <= k < |s.departures| && s.departures[k].plane == n;
      assert after.departures[k] == s.departures[k];
    }
  }

  lemma ReleaseGuards(worlds: string -> World, s: System, m: string, t: nat, n: string)
    requires Configured(worlds)
    requires PlaneGuarded(worlds(n), s, n, PlaneOf(s, n)) && Tidy(worlds(n), PlaneOf(s, n))
    ensures PlaneGuarded(worlds(n), Next(worlds, s, Step.Release(m, t)), n, PlaneOf(s, n))
  {
    var after, p := Next(worlds, s, Step.Release(m, t)), PlaneOf(s, n);
    if after.departures != s.departures {
      var d := DepartureOf(PlaneOf(s, m), s, m, Runs.At(PlaneOf(s, m), t).own);
      if m == n { ReleaseJustified(worlds(n), s, n, p, t); }
      LockedAfterRelease(worlds(n), s, after, n, p, worlds(m).localRegions, d);
    }
  }

  // ----- every step ---------------------------------------------------------

  lemma ZoneGuards(worlds: string -> World, s: System, step: Step, n: string)
    requires Configured(worlds)
    requires PlaneGuarded(worlds(n), s, n, PlaneOf(s, n))
    requires step.Hold? || step.Delete? || step.Verify? || step.StopServing?
    ensures PlaneGuarded(worlds(n), Next(worlds, s, step), n, PlaneOf(s, n))
  {
    if step.Delete? && !s.deleting { DatedByDeletion(PlaneOf(s, n)); }
    assert Departed(s, n) ==> Departed(Next(worlds, s, step), n);
  }

  lemma SameZone(w: World, s: System, after: System, n: string, p: Runs.System)
    requires PlaneGuarded(w, s, n, p) && after == s.(planes := after.planes)
    ensures PlaneGuarded(w, after, n, p)
  {
    assert Departed(s, n) ==> Departed(after, n);
  }

  lemma ExchangeStep(worlds: string -> World, s: System, m: string, x: Runs.Step, n: string)
    requires Configured(worlds)
    requires PlaneGuarded(worlds(n), s, n, PlaneOf(s, n)) && Reachable(worlds(n), PlaneOf(s, n))
    ensures var after := Next(worlds, s, Exchange(m, x)); PlaneGuarded(worlds(n), after, n, PlaneOf(after, n))
  {
    var after := Next(worlds, s, Exchange(m, x));
    if m == n && ZoneAllows(worlds(n), s, x) {
      ExchangeGuards(worlds(n), s, n, PlaneOf(s, n), x);
    }
    SameZone(worlds(n), s, after, n, PlaneOf(after, n));
  }

  /** A control plane changes only by an exchange of its own that the zone allows. */
  lemma PlaneNext(worlds: string -> World, s: System, step: Step, n: string)
    requires Configured(worlds)
    ensures var p, q := PlaneOf(s, n), PlaneOf(Next(worlds, s, step), n);
            || q == p
            || (step.Exchange? && step.plane == n && ZoneAllows(worlds(n), s, step.step) && q == Runs.Next(worlds(n), p, step.step))
  {
  }

  lemma StillReachable(w: World, p: Runs.System, q: Runs.System, x: Runs.Step)
    requires Sound(w) && Reachable(w, p) && (q == p || q == Runs.Next(w, p, x))
    ensures Reachable(w, q)
  {
    if q != p { ReachableNext(w, p, x); }
  }

  lemma StepReaches(worlds: string -> World, s: System, step: Step, n: string)
    requires Configured(worlds) && Reachable(worlds(n), PlaneOf(s, n))
    ensures Reachable(worlds(n), PlaneOf(Next(worlds, s, step), n))
  {
    PlaneNext(worlds, s, step, n);
    StillReachable(worlds(n), PlaneOf(s, n), PlaneOf(Next(worlds, s, step), n), if step.Exchange? then step.step else Runs.Crash(0));
  }

  lemma StepGuards(worlds: string -> World, s: System, step: Step, n: string)
    requires Configured(worlds)
    requires PlaneGuarded(worlds(n), s, n, PlaneOf(s, n)) && Reachable(worlds(n), PlaneOf(s, n))
    ensures var after := Next(worlds, s, step); PlaneGuarded(worlds(n), after, n, PlaneOf(after, n))
  {
    PlaneNext(worlds, s, step, n);
    match step
    case Exchange(m, x) => ExchangeStep(worlds, s, m, x, n);
    case Release(m, t) => ReleaseGuards(worlds, s, m, t, n);
    case _ => ZoneGuards(worlds, s, step, n);
  }

  lemma {:induction false} RunReaches(worlds: string -> World, start: System, steps: seq<Step>, n: string)
    requires Configured(worlds) && Fresh(start)
    ensures Reachable(worlds(n), PlaneOf(After(worlds, start, steps), n))
  {
    if steps == [] {
      ReachableAfter(worlds(n), []);
    } else {
      RunReaches(worlds, start, steps[..|steps| - 1], n);
      StepReaches(worlds, After(worlds, start, steps[..|steps| - 1]), steps[|steps| - 1], n);
    }
  }

  lemma {:induction false} RunGuards(worlds: string -> World, start: System, steps: seq<Step>, n: string)
    requires Configured(worlds) && Fresh(start)
    ensures var s := After(worlds, start, steps); PlaneGuarded(worlds(n), s, n, PlaneOf(s, n))
  {
    if steps != [] {
      RunReaches(worlds, start, steps[..|steps| - 1], n);
      RunGuards(worlds, start, steps[..|steps| - 1], n);
      StepGuards(worlds, After(worlds, start, steps[..|steps| - 1]), steps[|steps| - 1], n);
    }
  }

  ghost predicate Released(log: seq<Runs.Commitment>, n: string, d: Departure) {
    && d.plane == n
    && match d.active
       case Some(id) => WithdrawnSince(log, id, d.verified)
       case None => !d.idle
  }

  /**
   * A zone has lost its last regional finalizer only when every control plane
   * that published it to a region still served has released it: on a withdrawal
   * of its own, without targets or reported Published, after which it committed
   * withdrawals only; or on a copy of its record that named no publication
   * when it was taken, while a first one was on its way or already made.
   */
  lemma RemovedOnlyWhenWithdrawn(worlds: string -> World, start: System, steps: seq<Step>, n: string, r: Region)
    requires Configured(worlds) && Fresh(start) && r in worlds(n).localRegions
    requires var s := After(worlds, start, steps); s.held == {} && r in s.serving && PlaneOf(s, n).log != []
    ensures var s := After(worlds, start, steps);
            s.deleting && exists k :: 0 <= k < |s.departures| && Released(PlaneOf(s, n).log, n, s.departures[k])
  {
    RunGuards(worlds, start, steps, n);
    Leaves(worlds(n), After(worlds, start, steps), n, PlaneOf(After(worlds, start, steps), n), r);
  }

  lemma Leaves(w: World, s: System, n: string, p: Runs.System, r: Region)
    requires PlaneGuarded(w, s, n, p) && p.log != [] && r in w.localRegions && r in s.serving && r !in s.held
    ensures s.deleting && exists k :: 0 <= k < |s.departures| && Released(p.log, n, s.departures[k])
  {
    var k :| 0 <= k < |s.departures| && s.departures[k].plane == n;
    assert Released(p.log, n, s.departures[k]);
  }
}
