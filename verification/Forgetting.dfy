/** What a withdrawal forgets: exactly when the fences of a zone survive into its next serving revision. */
module Forgetting {
  import opened Text
  import opened Sources
  import opened Wire
  import opened Publication
  import opened Runs
  import opened RunProofs
  import opened RunContent
  import opened RunWithdrawals
  import opened RunProgress
  import opened Takeovers
  import opened Succession
  import opened NoResurrection
  import opened History

  // ----- serving again after a withdrawal -----------------------------------

  lemma LivePrepared(w: World, s: System, input: Input, q: WirePlan)
    requires Sound(w) && Reachable(w, s) && s.log != [] && s.store.owner.Some? && PlanOf(s.log, |s.log|).None?
    requires s.log[|s.log| - 1].id.epoch < s.store.owner.value.epoch && w.compile(None, input) == Some(q)
    ensures var d := Prepare(w, s.store, s.store.owner.value, input, false, {});
            d.Some? && d.value.plan == Some(q) && !d.value.tombstone
  {
    var own := s.store.owner.value;
    PreviousLoads(w, s, own);
    PreviousRevision(w, s, own);
    ActiveManifest(w, s);
  }

  /** The commit that is last in the log is `c`, and everything before is as it was. */
  ghost predicate Appends(before: seq<Commitment>, after: seq<Commitment>, plan: Option<WirePlan>) {
    |after| == |before| + 1 && before <= after && after[|before|].draft.plan == plan && !after[|before|].draft.tombstone
  }

  /**
   * After a withdrawal whoever takes the zone over can serve it again, from
   * nothing: the run ends with a pass that compiles a read of the live zone
   * taken before the withdrawal.
   */
  lemma ServesAgain(w: World, steps: seq<Step>, input: Input, q: WirePlan) returns (more: seq<Step>)
    requires Sound(w) && After(w, steps).log != [] && PlanOf(After(w, steps).log, |After(w, steps).log|).None?
    requires w.compile(None, input) == Some(q)
    ensures Appends(After(w, steps).log, After(w, steps + more).log, Some(q))
  {
    ReachableAfter(w, steps);
    more := ContinuesServing(w, After(w, steps), input, q);
    AfterContinues(w, steps, more);
  }

  lemma ContinuesServing(w: World, s: System, input: Input, q: WirePlan) returns (more: seq<Step>)
    requires Sound(w) && Reachable(w, s) && s.log != [] && PlanOf(s.log, |s.log|).None? && w.compile(None, input) == Some(q)
    ensures Appends(s.log, Continue(w, s, more).log, Some(q))
  {
    ActiveManifest(w, s);
    var take := TakesOver(w, s, 0);
    var a := Continue(w, s, take);
    LivePrepared(w, a, input, q);
    var rest := PassCommits(w, a, 0, input, false, {}, 0);
    more := take + rest;
    ContinueConcat(w, s, take, rest);
  }

  // ----- the exact condition ------------------------------------------------

  /** However the run goes on, the next revision keeps the fences if it serves the zone. */
  ghost predicate NextKeeps(w: World, steps: seq<Step>, fences: seq<Fence>) {
    forall more :: KeepsAt(After(w, steps + more).log, |After(w, steps).log|, fences)
  }

  ghost predicate KeepsAt(log: seq<Commitment>, n: nat, fences: seq<Fence>) {
    n < |log| && !log[n].draft.tombstone ==> log[n].draft.plan.Some? && KeepsFences(fences, log[n].draft.plan.value.fences)
  }

  lemma {:induction false} ContinueGrows(w: World, s: System, more: seq<Step>)
    ensures s.log <= Continue(w, s, more).log
    decreases |more|
  {
    if more != [] {
      LogOnlyGrows(w, s, more[0]);
      ContinueGrows(w, Next(w, s, more[0]), more[1..]);
    }
  }

  lemma LogPrefix(w: World, steps: seq<Step>, more: seq<Step>)
    ensures After(w, steps).log <= After(w, steps + more).log
  {
    AfterContinues(w, steps, more);
    ContinueGrows(w, After(w, steps), more);
  }

  /** A serving revision keeps the fences of the one before it, if that served. */
  lemma KeptOnTop(w: World, log: seq<Commitment>, n: nat, p: WirePlan)
    requires Following(w) && LinearHistory(w, log)
    requires p.fences == [] || (0 < n && (n < |log| ==> log[n - 1].draft.plan == Some(p)))
    ensures KeepsAt(log, n, p.fences)
  {
    if n < |log| && !log[n].draft.tombstone {
      CommitFollows(w, log, n);
    }
  }

  /** The empty zone has no fences. */
  lemma BareFences(valid: WirePlan -> bool)
    requires CompileWire(valid, None, BARE).Some?
    ensures CompileWire(valid, None, BARE).value.fences == []
  {
    BareZone();
    WireFences(valid, None, BARE);
    assert WithPrevious(BARE, None) == BARE;
  }

  /** A withdrawal leaves no plan to load. */
  lemma WithdrawnPlan(w: World, steps: seq<Step>)
    requires Sound(w) && After(w, steps).log != [] && After(w, steps).log[|After(w, steps).log| - 1].draft.tombstone
    ensures PlanOf(After(w, steps).log, |After(w, steps).log|).None?
  {
    RunsLinear(w, steps);
    HistoryAt(w, After(w, steps).log, |After(w, steps).log| - 1);
  }

  lemma ForgottenNext(w: World, steps: seq<Step>, fences: seq<Fence>, input: Input, q: WirePlan)
    requires Sound(w) && w.compile(None, input) == Some(q) && q.fences == [] && fences != []
    requires After(w, steps).log != [] && PlanOf(After(w, steps).log, |After(w, steps).log|).None?
    ensures !NextKeeps(w, steps, fences)
  {
    var more := ServesAgain(w, steps, input, q);
    assert fences[0] in fences;
    assert !KeepsAt(After(w, steps + more).log, |After(w, steps).log|, fences);
  }

  lemma KeptNext(w: World, steps: seq<Step>, p: WirePlan)
    requires Following(w) && After(w, steps).log != []
    requires var log := After(w, steps).log; log[|log| - 1].draft.plan == Some(p) || p.fences == []
    ensures NextKeeps(w, steps, p.fences)
  {
    var before := After(w, steps).log;
    forall more ensures KeepsAt(After(w, steps + more).log, |before|, p.fences) {
      LogPrefix(w, steps, more);
      RunsLinear(w, steps + more);
      assert After(w, steps + more).log[|before| - 1] == before[|before| - 1];
      KeptOnTop(w, After(w, steps + more).log, |before|, p);
    }
  }

  /**
   * A withdrawal has an empty payload, so the revision after it starts without
   * fences. In every run, where `p` is the last plan committed, the next
   * revision keeps the fences of `p` however the run goes on, if and only if
   * the zone has not been withdrawn since or `p` has none.
   */
  lemma KeptUnlessWithdrawn(w: World, valid: WirePlan -> bool, steps: seq<Step>, i: nat, p: WirePlan)
    requires History.Compiles(w, valid) && CompileWire(valid, None, BARE).Some? && i < |After(w, steps).log|
    requires var log := After(w, steps).log;
             log[i].draft.plan == Some(p) && forall j :: i < j < |log| ==> log[j].draft.tombstone
    ensures NextKeeps(w, steps, p.fences) <==> i == |After(w, steps).log| - 1 || p.fences == []
  {
    var log := After(w, steps).log;
    if i == |log| - 1 || p.fences == [] {
      CompilerFollows(w, valid);
      KeptNext(w, steps, p);
    } else {
      WithdrawnPlan(w, steps);
      BareFences(valid);
      assert w.compile(None, BARE) == CompileWire(valid, None, BARE);
      ForgottenNext(w, steps, p.fences, BARE, CompileWire(valid, None, BARE).value);
    }
  }
}
