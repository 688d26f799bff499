/** How long a control plane's withdrawal stays settled after it released the zone. */
module Settling {
  import opened Sources
  import opened Publication
  import opened RunProofs
  import opened RunTombstones
  import opened RunProgress
  import opened Takeovers
  import opened Finalizers
  import opened Departures
  import opened Removal
  import Runs

  ghost predicate LastTombstone(p: Runs.System) {
    p.log != [] && p.log[|p.log| - 1].manifest.tombstone
  }

  function LastTargets(p: Runs.System): set<Target>
    requires p.log != []
  {
    p.log[|p.log| - 1].manifest.serving
  }

  /** The active publication of `n` is a withdrawal without targets, or one reported Published. */
  ghost predicate Settled(s: System, n: string) {
    var p := PlaneOf(s, n);
    LastTombstone(p) && (LastTargets(p) == {} || (n, p.log[|p.log| - 1].id) in s.verified)
  }

  // ----- a withdrawal without targets ---------------------------------------

  ghost predicate Empty(p: Runs.System) {
    LastTombstone(p) && LastTargets(p) == {}
  }

  lemma EmptyCommit(w: World, p: Runs.System, x: Runs.Step)
    requires w.regional && x.Commit? && Empty(p)
    requires DraftDated(p, x.pass, true) && Aimed(w, p, Runs.At(p, x.pass))
    ensures Empty(Runs.Next(w, p, x))
  {
    CommitShape(w, p, x);
  }

  lemma EmptyNext(w: World, p: Runs.System, x: Runs.Step)
    requires w.regional && Tidy(w, p) && Dated(p, true) && Empty(p)
    ensures Empty(Runs.Next(w, p, x))
  {
    if x.Commit? {
      assert DraftDated(p, x.pass, true) && Aimed(w, p, Runs.At(p, x.pass));
      EmptyCommit(w, p, x);
    } else {
      LogKept(w, p, x);
    }
  }

  lemma EmptyStep(worlds: string -> World, s: System, step: Step, n: string)
    requires Configured(worlds) && Reachable(worlds(n), PlaneOf(s, n))
    requires Dated(PlaneOf(s, n), true) && Empty(PlaneOf(s, n))
    ensures Empty(PlaneOf(Next(worlds, s, step), n))
  {
    PlaneNext(worlds, s, step, n);
    if PlaneOf(Next(worlds, s, step), n) != PlaneOf(s, n) {
      EmptyNext(worlds(n), PlaneOf(s, n), step.step);
    }
  }

  /** What a run keeps of one control plane. */
  ghost predicate Kept(worlds: string -> World, s: System, n: string) {
    Reachable(worlds(n), PlaneOf(s, n)) && PlaneGuarded(worlds(n), s, n, PlaneOf(s, n))
  }

  lemma KeptNext(worlds: string -> World, s: System, step: Step, n: string)
    requires Configured(worlds) && Kept(worlds, s, n)
    ensures Kept(worlds, Next(worlds, s, step), n)
  {
    StepReaches(worlds, s, step, n);
    StepGuards(worlds, s, step, n);
  }

  lemma DeletingNext(worlds: string -> World, s: System, step: Step)
    requires Configured(worlds) && s.deleting
    ensures Next(worlds, s, step).deleting
  {
  }

  lemma {:induction false} KeptAlong(worlds: string -> World, s: System, more: seq<Step>, n: string)
    requires Configured(worlds) && Kept(worlds, s, n)
    ensures Kept(worlds, After(worlds, s, more), n)
  {
    if more != [] {
      KeptAlong(worlds, s, more[..|more| - 1], n);
      KeptNext(worlds, After(worlds, s, more[..|more| - 1]), more[|more| - 1], n);
    }
  }

  lemma {:induction false} ReachesAlong(worlds: string -> World, s: System, more: seq<Step>, n: string)
    requires Configured(worlds) && Reachable(worlds(n), PlaneOf(s, n))
    ensures Reachable(worlds(n), PlaneOf(After(worlds, s, more), n))
  {
    if more != [] {
      ReachesAlong(worlds, s, more[..|more| - 1], n);
      StepReaches(worlds, After(worlds, s, more[..|more| - 1]), more[|more| - 1], n);
    }
  }

  lemma {:induction false} DeletingAlong(worlds: string -> World, s: System, more: seq<Step>)
    requires Configured(worlds) && s.deleting
    ensures After(worlds, s, more).deleting
  {
    if more != [] {
      DeletingAlong(worlds, s, more[..|more| - 1]);
      DeletingNext(worlds, After(worlds, s, more[..|more| - 1]), more[|more| - 1]);
    }
  }

  lemma {:induction false} EmptyStays(worlds: string -> World, s: System, more: seq<Step>, n: string)
    requires Configured(worlds) && Kept(worlds, s, n)
    requires s.deleting && Empty(PlaneOf(s, n))
    ensures Empty(PlaneOf(After(worlds, s, more), n))
  {
    if more != [] {
      var rest := more[..|more| - 1];
      EmptyStays(worlds, s, rest, n);
      KeptAlong(worlds, s, rest, n);
      DeletingAlong(worlds, s, rest);
      EmptyStep(worlds, After(worlds, s, rest), more[|more| - 1], n);
    }
  }

  // ----- a withdrawal with targets ------------------------------------------

  lemma WithdrawAllowed(w: World, s: System, t: nat, xs: seq<Runs.Step>)
    requires s.deleting && forall x :: x in xs ==> Withdraws(x, t)
    ensures AllAllowed(w, s, xs)
  {
    forall i | 0 <= i < |xs| ensures ZoneAllows(w, s, xs[i]) { assert xs[i] in xs; }
  }

  lemma SameTargets(w: World, p: Runs.System)
    requires Tidy(w, p) && p.log != []
    ensures ServingOf(w, LastTargets(p)) == LastTargets(p)
  {
    assert AllLocal(w, p.log[|p.log| - 1].manifest.serving);
  }

  /** The control plane is `q`: it has committed another withdrawal with the same targets. */
  ghost predicate WithdrewAgain(w: World, p: Runs.System, q: Runs.System) {
    && p.log != [] && |q.log| == |p.log| + 1 && p.log <= q.log
    && LastTombstone(q) && LastTargets(q) == LastTargets(p) && !Committed(p.log, q.log[|p.log|].id)
    && HeldIn(q, q.log[|p.log|].id.epoch, w.hash([]))
  }

  lemma PlaneWithdraws(w: World, p: Runs.System, input: Input) returns (xs: seq<Runs.Step>)
    requires Sound(w) && Reachable(w, p) && p.log != []
    ensures WithdrewAgain(w, p, Continue(w, p, xs))
    ensures forall x :: x in xs ==> Withdraws(x, 0)
  {
    var c;
    xs, c := TakeoverWithdraws(w, p, 0, input);
    SameTargets(w, p);
    Appended(w, p, Continue(w, p, xs), c);
  }

  lemma Appended(w: World, p: Runs.System, q: Runs.System, c: Runs.Commitment)
    requires p.log != [] && q.log == p.log + [c] && c.manifest.tombstone && c.manifest.serving == LastTargets(p)
    requires !Committed(p.log, c.id) && HeldIn(q, c.id.epoch, w.hash([]))
    ensures WithdrewAgain(w, p, q)
  {
  }

  /** Whoever takes a deleted zone over withdraws it once more, from the same shards. */
  lemma WithdrawsAgain(worlds: string -> World, s: System, n: string, input: Input) returns (more: seq<Step>, q: Runs.System)
    requires Configured(worlds) && Reachable(worlds(n), PlaneOf(s, n))
    requires s.deleting && PlaneOf(s, n).log != []
    ensures After(worlds, s, more) == Became(s, n, q) && WithdrewAgain(worlds(n), PlaneOf(s, n), q)
    ensures forall i :: 0 <= i < |more| ==> more[i].Exchange? && more[i].plane == n
  {
    var xs := PlaneWithdraws(worlds(n), PlaneOf(s, n), input);
    q := Continue(worlds(n), PlaneOf(s, n), xs);
    more := LiftWithdrawal(worlds, s, n, xs, q);
  }

  lemma LiftWithdrawal(worlds: string -> World, s: System, n: string, xs: seq<Runs.Step>, q: Runs.System) returns (more: seq<Step>)
    requires Configured(worlds) && n in s.planes && s.deleting
    requires (forall x :: x in xs ==> Withdraws(x, 0)) && q == Continue(worlds(n), PlaneOf(s, n), xs)
    ensures After(worlds, s, more) == Became(s, n, q)
    ensures forall i :: 0 <= i < |more| ==> more[i].Exchange? && more[i].plane == n
  {
    WithdrawAllowed(worlds(n), s, 0, xs);
    Lifted(worlds, s, n, xs);
    more := Exchanges(n, xs);
  }

  lemma NotVerified(w: World, s: System, n: string, p: Runs.System, q: Runs.System)
    requires PlaneGuarded(w, s, n, p) && WithdrewAgain(w, p, q) && LastTargets(p) != {}
    ensures !Settled(Became(s, n, q), n)
  {
  }

  lemma Unsettles(worlds: string -> World, s: System, n: string, input: Input) returns (more: seq<Step>)
    requires Configured(worlds) && Kept(worlds, s, n)
    requires s.deleting && PlaneOf(s, n).log != [] && LastTargets(PlaneOf(s, n)) != {}
    ensures !Settled(After(worlds, s, more), n)
    ensures forall i :: 0 <= i < |more| ==> more[i].Exchange? && more[i].plane == n
  {
    var q;
    more, q := WithdrawsAgain(worlds, s, n, input);
    NotVerified(worlds(n), s, n, PlaneOf(s, n), q);
  }

  ghost predicate StaysSettled(worlds: string -> World, s: System, n: string) {
    forall more :: Settled(After(worlds, s, more), n)
  }

  /** Exchanges of `n` alone leave it unsettled; no Published condition changes. */
  ghost predicate MayUnsettle(worlds: string -> World, s: System, n: string, more: seq<Step>) {
    !Settled(After(worlds, s, more), n) && forall i :: 0 <= i < |more| ==> more[i].Exchange? && more[i].plane == n
  }

  /**
   * A control plane whose withdrawal is settled stays settled whatever happens
   * until the zone goes, if and only if that withdrawal has no targets. With
   * targets, a takeover alone unsettles it: the new holder withdraws again
   * from the same shards, and nobody has acknowledged that revision.
   */
  lemma SettledForGood(worlds: string -> World, start: System, steps: seq<Step>, n: string, input: Input)
    requires Configured(worlds) && Fresh(start) && Settled(After(worlds, start, steps), n)
    ensures var s := After(worlds, start, steps);
            && (StaysSettled(worlds, s, n) <==> LastTargets(PlaneOf(s, n)) == {})
            && (LastTargets(PlaneOf(s, n)) != {} ==> exists more :: MayUnsettle(worlds, s, n, more))
  {
    RunReaches(worlds, start, steps, n);
    RunGuards(worlds, start, steps, n);
    TargetsDecide(worlds, After(worlds, start, steps), n, input);
  }

  lemma TargetsDecide(worlds: string -> World, s: System, n: string, input: Input)
    requires Configured(worlds) && Kept(worlds, s, n) && Settled(s, n)
    ensures StaysSettled(worlds, s, n) <==> LastTargets(PlaneOf(s, n)) == {}
    ensures LastTargets(PlaneOf(s, n)) != {} ==> exists more :: MayUnsettle(worlds, s, n, more)
  {
    assert s.deleting;
    if LastTargets(PlaneOf(s, n)) == {} {
      forall more ensures Settled(After(worlds, s, more), n) { EmptyStays(worlds, s, more, n); }
    } else {
      var more := Unsettles(worlds, s, n, input);
      assert MayUnsettle(worlds, s, n, more);
    }
  }
}
