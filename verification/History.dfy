/** The committed history of a zone over any run of the protocol with the real compiler. */
module History {
  import opened Text
  import opened Sources
  import opened FenceTable
  import opened Wire
  import opened Publication
  import opened Runs
  import opened RunContent
  import opened Succession
  import opened NoResurrection

  /** The world whose compiler is the zone compiler, with validation `valid`. */
  ghost predicate Compiles(w: World, valid: WirePlan -> bool) {
    Sound(w) && forall previous, inp :: w.compile(previous, inp) == CompileWire(valid, previous, inp)
  }

  /** Whatever the compiler of the world makes of its inputs follows the plan before. */
  ghost predicate Following(w: World) {
    Sound(w) && forall previous, inp :: w.compile(previous, inp).Some? ==> Follows(previous, w.compile(previous, inp).value)
  }

  lemma CompilerFollows(w: World, valid: WirePlan -> bool)
    requires Compiles(w, valid)
    ensures Following(w)
  {
    forall previous, inp | w.compile(previous, inp).Some? ensures Follows(previous, w.compile(previous, inp).value) {
      CompilationFollows(valid, previous, inp);
    }
  }

  /** No commit from `i` to `j` withdraws the zone. */
  ghost predicate Serving(log: seq<Commitment>, i: nat, j: nat)
    requires i <= j < |log|
  {
    forall k :: i <= k <= j ==> !log[k].draft.tombstone
  }

  ghost predicate PlanFollows(log: seq<Commitment>, k: nat)
    requires k < |log|
  {
    log[k].draft.plan.Some? && Follows(PlanOf(log, k), log[k].draft.plan.value)
  }

  lemma CommitFollows(w: World, log: seq<Commitment>, i: nat)
    requires Following(w) && LinearHistory(w, log) && i < |log| && !log[i].draft.tombstone
    ensures PlanFollows(log, i)
  {
    HistoryAt(w, log, i);
    assert PlanOf(log[..i], i) == PlanOf(log, i);
  }

  /** The plans committed from `i` to `j`. */
  ghost function PlansFrom(log: seq<Commitment>, i: nat, j: nat): (plans: seq<WirePlan>)
    requires i <= j < |log| && forall k :: i <= k <= j ==> PlanFollows(log, k)
  {
    seq(j - i + 1, k requires 0 <= k <= j - i => assert PlanFollows(log, i + k); log[i + k].draft.plan.value)
  }

  lemma PlansSucceed(log: seq<Commitment>, i: nat, j: nat)
    requires i <= j < |log| && forall k :: i <= k <= j ==> PlanFollows(log, k)
    ensures Successive(PlansFrom(log, i, j))
  {
    var plans := PlansFrom(log, i, j);
    forall k | 0 <= k < |plans| ensures Succeeds(plans, k) {
      assert PlanFollows(log, i + k);
      assert k > 0 ==> PlanFollows(log, i + k - 1);
    }
  }

  lemma PlansEnds(log: seq<Commitment>, i: nat, j: nat)
    requires i <= j < |log| && forall k :: i <= k <= j ==> PlanFollows(log, k)
    ensures PlanFollows(log, i) && PlansFrom(log, i, j)[0] == log[i].draft.plan.value
    ensures PlanFollows(log, j) && PlansFrom(log, i, j)[j - i] == log[j].draft.plan.value
  {
  }

  lemma PlansKeep(plans: seq<WirePlan>, f: Fence, p: WirePlan)
    requires Successive(plans) && plans != [] && f in plans[0].fences && p == plans[|plans| - 1]
    ensures (exists g :: g in p.fences && Advances(f, g)) && NotFencedOff(f, p)
  {
    var g := FenceStands(plans, |plans| - 1, f);
    NothingReturns(plans, |plans| - 1, f);
  }

  lemma ServingFollows(w: World, log: seq<Commitment>, i: nat, j: nat)
    requires Following(w) && LinearHistory(w, log) && i <= j < |log| && Serving(log, i, j)
    ensures forall k :: i <= k <= j ==> PlanFollows(log, k)
  {
    forall k | i <= k <= j ensures PlanFollows(log, k) {
      CommitFollows(w, log, k);
    }
  }

  lemma RunsLinear(w: World, steps: seq<Step>)
    requires Sound(w)
    ensures LinearHistory(w, After(w, steps).log)
  {
    RunsKeepContent(w, steps);
  }

  lemma FollowingKeeps(log: seq<Commitment>, i: nat, j: nat, f: Fence)
    requires i <= j < |log| && (forall k :: i <= k <= j ==> PlanFollows(log, k))
    requires log[i].draft.plan.Some? && f in log[i].draft.plan.value.fences
    ensures log[j].draft.plan.Some? && NotFencedOff(f, log[j].draft.plan.value)
    ensures exists g :: g in log[j].draft.plan.value.fences && Advances(f, g)
  {
    PlansEnds(log, i, j);
    PlansSucceed(log, i, j);
    PlansKeep(PlansFrom(log, i, j), f, log[j].draft.plan.value);
  }

  lemma LogKeepsFences(w: World, log: seq<Commitment>, i: nat, j: nat, f: Fence)
    requires Following(w) && LinearHistory(w, log) && i <= j < |log| && Serving(log, i, j)
    requires log[i].draft.plan.Some? && f in log[i].draft.plan.value.fences
    ensures log[j].draft.plan.Some? && NotFencedOff(f, log[j].draft.plan.value)
    ensures exists g :: g in log[j].draft.plan.value.fences && Advances(f, g)
  {
    ServingFollows(w, log, i, j);
    FollowingKeeps(log, i, j, f);
  }

  /**
   * No resurrection. In any run, a fence of one commit stands at least as
   * strict in every later one until the zone is withdrawn, and no later commit
   * publishes a record that the fence excludes.
   */
  lemma FencesNeverFall(w: World, valid: WirePlan -> bool, steps: seq<Step>, i: nat, j: nat, f: Fence)
    requires Compiles(w, valid)
    requires var log := After(w, steps).log;
             && i <= j < |log| && Serving(log, i, j)
             && log[i].draft.plan.Some? && f in log[i].draft.plan.value.fences
    ensures var log := After(w, steps).log;
            && log[j].draft.plan.Some?
            && (exists g :: g in log[j].draft.plan.value.fences && Advances(f, g))
            && NotFencedOff(f, log[j].draft.plan.value)
  {
    RunsLinear(w, steps);
    CompilerFollows(w, valid);
    LogKeepsFences(w, After(w, steps).log, i, j, f);
  }

  /** The `i`-th commit builds on the one before it. */
  ghost predicate BuildsOnPrevious(w: World, log: seq<Commitment>, i: nat)
    requires i < |log|
  {
    && (!log[i].draft.tombstone ==>
          log[i].draft.plan == w.compile(if i == 0 then None else log[i - 1].draft.plan, log[i].draft.input))
    && log[i].manifest.previousRevision ==
       if i > 0 && log[i - 1].id.epoch == log[i].id.epoch then log[i - 1].id.revision else 0
  }

  lemma CommitLinks(w: World, log: seq<Commitment>, i: nat)
    requires LinearHistory(w, log) && i < |log|
    ensures BuildsOnPrevious(w, log, i)
  {
    HistoryAt(w, log, i);
    assert PlanOf(log[..i], i) == PlanOf(log, i);
  }

  /**
   * Single linear history. In any run each revision is reserved at most once,
   * every commit was compiled from the one before it, and along the active
   * pointer the epoch never falls and the revision strictly rises.
   */
  lemma SingleLinearHistory(w: World, steps: seq<Step>)
    requires Sound(w)
    ensures var s := After(w, steps);
            && ReservedOnce(s) && LogRises(s)
            && (forall i :: 0 <= i < |s.log| ==> BuildsOnPrevious(w, s.log, i))
            && (s.store.owner.Some? ==> s.store.owner.value.active == if s.log == [] then None else Some(s.log[|s.log| - 1].id))
  {
    RunsKeepContent(w, steps);
    var log := After(w, steps).log;
    forall i | 0 <= i < |log| ensures BuildsOnPrevious(w, log, i) {
      CommitLinks(w, log, i);
    }
  }

  /** The active publication can always be read back through a current copy, as the plan that was committed. */
  lemma ActivePlanLoads(w: World, steps: seq<Step>)
    requires Sound(w)
    ensures var s := After(w, steps);
            s.store.owner.Some? ==>
              LoadPrevious(w, s.store, s.store.owner.value)
              == Loaded(if s.log == [] then None else s.log[|s.log| - 1].draft.plan)
  {
    var s := After(w, steps);
    RunsKeepContent(w, steps);
    if s.store.owner.Some? {
      PreviousLoads(w, s, s.store.owner.value);
    }
  }
}
