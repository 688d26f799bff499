/** When releasing an unpublished zone is final. */
module Removal {
  import opened Publication
  import opened RunProgress
  import opened Takeovers
  import opened Finalizers
  import opened Departures
  import Runs

  // ----- exchanges of one control plane -------------------------------------

  function Exchanges(n: string, xs: seq<Runs.Step>): (steps: seq<Step>)
    ensures |steps| == |xs|
  {
    seq(|xs|, i requires 0 <= i < |xs| => Exchange(n, xs[i]))
  }

  ghost predicate AllAllowed(w: World, s: System, xs: seq<Runs.Step>) {
    forall i :: 0 <= i < |xs| ==> ZoneAllows(w, s, xs[i])
  }

  /** The control plane `n` became `p`; nothing else changed. */
  function Became(s: System, n: string, p: Runs.System): System {
    s.(planes := s.planes[n := p])
  }

  lemma BecameTwice(s: System, n: string, p: Runs.System, q: Runs.System)
    ensures Became(Became(s, n, p), n, q) == Became(s, n, q)
    ensures n in s.planes ==> Became(s, n, PlaneOf(s, n)) == s
  {
    assert s.planes[n := p][n := q] == s.planes[n := q];
    if n in s.planes { assert s.planes[n := PlaneOf(s, n)] == s.planes; }
  }

  lemma OneExchange(worlds: string -> World, s: System, n: string, p: Runs.System, x: Runs.Step)
    requires Configured(worlds) && ZoneAllows(worlds(n), s, x)
    ensures Next(worlds, Became(s, n, p), Exchange(n, x)) == Became(s, n, Runs.Next(worlds(n), p, x))
  {
    BecameTwice(s, n, p, Runs.Next(worlds(n), p, x));
  }

  /** Exchanges that the zone allows change their own control plane and nothing else. */
  lemma {:induction false} Lifted(worlds: string -> World, s: System, n: string, xs: seq<Runs.Step>)
    requires Configured(worlds) && n in s.planes && AllAllowed(worlds(n), s, xs)
    ensures After(worlds, s, Exchanges(n, xs)) == Became(s, n, Continue(worlds(n), PlaneOf(s, n), xs))
    decreases |xs|
  {
    if xs == [] {
      BecameTwice(s, n, PlaneOf(s, n), PlaneOf(s, n));
    } else {
      var rest := xs[..|xs| - 1];
      Lifted(worlds, s, n, rest);
      LiftLast(worlds, s, n, xs);
    }
  }

  lemma LiftLast(worlds: string -> World, s: System, n: string, xs: seq<Runs.Step>)
    requires Configured(worlds) && xs != [] && ZoneAllows(worlds(n), s, xs[|xs| - 1])
    requires var rest := xs[..|xs| - 1];
             After(worlds, s, Exchanges(n, rest)) == Became(s, n, Continue(worlds(n), PlaneOf(s, n), rest))
    ensures After(worlds, s, Exchanges(n, xs)) == Became(s, n, Continue(worlds(n), PlaneOf(s, n), xs))
  {
    var rest, x := xs[..|xs| - 1], xs[|xs| - 1];
    ExchangesLast(n, xs);
    AfterLast(worlds, s, Exchanges(n, xs));
    OneExchange(worlds, s, n, Continue(worlds(n), PlaneOf(s, n), rest), x);
    ContinueLast(worlds(n), PlaneOf(s, n), xs);
  }

  lemma ExchangesLast(n: string, xs: seq<Runs.Step>)
    requires xs != []
    ensures Exchanges(n, xs)[..|xs| - 1] == Exchanges(n, xs[..|xs| - 1]) && Exchanges(n, xs)[|xs| - 1] == Exchange(n, xs[|xs| - 1])
  {
  }

  lemma AfterLast(worlds: string -> World, s: System, steps: seq<Step>)
    requires Configured(worlds) && steps != []
    ensures After(worlds, s, steps) == Next(worlds, After(worlds, s, steps[..|steps| - 1]), steps[|steps| - 1])
  {
  }

  lemma ContinueLast(w: World, p: Runs.System, xs: seq<Runs.Step>)
    requires xs != []
    ensures Continue(w, p, xs) == Runs.Next(w, Continue(w, p, xs[..|xs| - 1]), xs[|xs| - 1])
  {
    var rest, x := xs[..|xs| - 1], xs[|xs| - 1];
    assert rest + [x] == xs;
    ContinueConcat(w, p, rest, [x]);
    ContinueOne(w, Continue(w, p, rest), x);
  }

  // ----- releasing an unpublished zone --------------------------------------

  lemma IdleStep(worlds: string -> World, s: System, step: Step, n: string)
    requires Configured(worlds) && Reachable(worlds(n), PlaneOf(s, n))
    requires s.deleting && Idle(PlaneOf(s, n))
    ensures var after := Next(worlds, s, step); after.deleting && Idle(PlaneOf(after, n))
  {
    PlaneNext(worlds, s, step, n);
    if PlaneOf(Next(worlds, s, step), n) != PlaneOf(s, n) {
      IdleNext(worlds(n), PlaneOf(s, n), step.step);
    }
  }

  lemma {:induction false} IdleStays(worlds: string -> World, s: System, more: seq<Step>, n: string)
    requires Configured(worlds) && Reachable(worlds(n), PlaneOf(s, n))
    requires s.deleting && Idle(PlaneOf(s, n))
    ensures var after := After(worlds, s, more); after.deleting && Idle(PlaneOf(after, n)) && Reachable(worlds(n), PlaneOf(after, n))
  {
    if more != [] {
      var rest := more[..|more| - 1];
      IdleStays(worlds, s, rest, n);
      IdleStep(worlds, After(worlds, s, rest), more[|more| - 1], n);
      StepReaches(worlds, After(worlds, s, rest), more[|more| - 1], n);
    }
  }

  /** A draft on a current copy is published by its own pass, deleted zone or not. */
  lemma DraftPublishes(worlds: string -> World, s: System, n: string, t: nat) returns (more: seq<Step>)
    requires Configured(worlds) && Reachable(worlds(n), PlaneOf(s, n))
    requires Current(PlaneOf(s, n), t)
    ensures var after := After(worlds, s, more);
            PlaneOf(after, n).log != [] && after.held == s.held && after.serving == s.serving
  {
    var xs := CurrentDraftCommits(worlds(n), PlaneOf(s, n), t, 0);
    FinishAllowed(worlds(n), s, t, xs);
    Lifted(worlds, s, n, xs);
    more := Exchanges(n, xs);
  }

  lemma FinishAllowed(w: World, s: System, t: nat, xs: seq<Runs.Step>)
    requires forall x :: x in xs ==> Finishes(x, t)
    ensures AllAllowed(w, s, xs)
  {
    forall i | 0 <= i < |xs| ensures ZoneAllows(w, s, xs[i]) { assert xs[i] in xs; }
  }

  /** However the run goes on, control plane `n` publishes nothing. */
  ghost predicate StaysUnpublished(worlds: string -> World, s: System, n: string) {
    forall more :: PlaneOf(After(worlds, s, more), n).log == []
  }

  /**
   * A control plane that releases a deleted zone it has not published never
   * publishes it later, if and only if nothing is published yet and no pass
   * holds a draft on a current copy of the ownership record.
   */
  lemma IdleIsFinal(worlds: string -> World, start: System, steps: seq<Step>, n: string)
    requires Configured(worlds) && Fresh(start) && After(worlds, start, steps).deleting
    ensures var s := After(worlds, start, steps);
            Idle(PlaneOf(s, n)) <==> StaysUnpublished(worlds, s, n)
  {
    RunReaches(worlds, start, steps, n);
    IdleDecides(worlds, After(worlds, start, steps), n);
  }

  lemma IdleDecides(worlds: string -> World, s: System, n: string)
    requires Configured(worlds) && Reachable(worlds(n), PlaneOf(s, n))
    requires s.deleting
    ensures Idle(PlaneOf(s, n)) <==> StaysUnpublished(worlds, s, n)
  {
    IdleMeans(PlaneOf(s, n));
    if Idle(PlaneOf(s, n)) {
      forall more ensures PlaneOf(After(worlds, s, more), n).log == [] { IdleStays(worlds, s, more, n); }
    } else if PlaneOf(s, n).log != [] {
      assert After(worlds, s, []) == s;
    } else {
      var t :| Current(PlaneOf(s, n), t);
      var more := DraftPublishes(worlds, s, n, t);
    }
  }
}
