/**
 * Contribution fences: a lifetime high-water mark per contribution UID, kept
 * for absent, retired, invalid and rolled-back observations.
 */
module FenceTable {
  import opened Text
  import opened Sources

  /** What one compilation sees of a contribution; `stale` when its registration does not stand. */
  datatype Observation = Observation(uid: UID, stale: bool, generation: int, deleting: bool, source: string)

  function FenceOf(previous: map<UID, Fence>, uid: UID): Option<Fence> {
    if uid in previous then Some(previous[uid]) else None
  }

  /** Why an observation may not move its fence; empty when it may. */
  function Refusal(o: Observation, fence: Option<Fence>): string {
    if o.stale then "StaleRegistrationGeneration"
    else if fence.Some? && fence.value.retired then "RetiredContribution"
    else if o.generation < 1 then "InvalidContributionGeneration"
    else if fence.Some? && o.generation < fence.value.generation then "StaleContributionGeneration"
    else ""
  }

  function FenceStep(previous: map<UID, Fence>, fences: map<UID, Fence>, o: Observation): map<UID, Fence> {
    if Refusal(o, FenceOf(previous, o.uid)) != "" then fences
    else if o.uid !in previous || o.generation > previous[o.uid].generation || o.deleting then
      fences[o.uid := Fence(o.uid, o.generation, o.generation, o.deleting, o.source)]
    else fences
  }

  /** Fences carried over: those of contributions no longer present are retired. */
  function Carried(previous: map<UID, Fence>, present: set<UID>): map<UID, Fence> {
    map u | u in previous :: if u in present then previous[u] else previous[u].(retired := true)
  }

  function Fences(previous: map<UID, Fence>, present: set<UID>, observations: seq<Observation>): map<UID, Fence> {
    if observations == [] then Carried(previous, present)
    else
      FenceStep(previous, Fences(previous, present, observations[..|observations| - 1]), observations[|observations| - 1])
  }

  /** `after` keeps what `before` fenced: no lower generation, no return from retirement. */
  predicate Advances(before: Fence, after: Fence) {
    && after.uid == before.uid
    && after.generation >= before.generation
    && (before.retired ==> after.retired)
  }

  ghost predicate Keyed(fences: map<UID, Fence>) {
    forall u :: u in fences ==> fences[u].uid == u
  }

  /** No compilation loses a fence, lowers it or revives a retired one. */
  lemma {:induction false} FencesAdvance(previous: map<UID, Fence>, present: set<UID>, observations: seq<Observation>)
    requires Keyed(previous)
    ensures Keyed(Fences(previous, present, observations))
    ensures forall u :: u in previous ==>
              u in Fences(previous, present, observations)
              && Advances(previous[u], Fences(previous, present, observations)[u])
  {
    if observations != [] {
      FencesAdvance(previous, present, observations[..|observations| - 1]);
    }
  }

  ghost predicate DistinctObservations(observations: seq<Observation>) {
    forall i, j :: 0 <= i < j < |observations| ==> observations[i].uid != observations[j].uid
  }

  lemma {:induction false} FenceUntouched(previous: map<UID, Fence>, present: set<UID>, observations: seq<Observation>, u: UID)
    requires forall i :: 0 <= i < |observations| ==> observations[i].uid != u
    ensures FenceOf(Fences(previous, present, observations), u) == FenceOf(Carried(previous, present), u)
  {
    if observations != [] {
      FenceUntouched(previous, present, observations[..|observations| - 1], u);
    }
  }

  /**
   * An observation that is neither refused nor terminating ends with a live
   * fence at exactly its generation: the one it had, or a new one in its name.
   */
  lemma {:induction false} FenceOfCurrent(previous: map<UID, Fence>, present: set<UID>, observations: seq<Observation>, n: nat)
    requires DistinctObservations(observations) && n < |observations|
    requires var o := observations[n];
             Refusal(o, FenceOf(previous, o.uid)) == "" && !o.deleting && o.uid in present
    ensures var o, fences := observations[n], Fences(previous, present, observations);
            && o.uid in fences && fences[o.uid].generation == o.generation && !fences[o.uid].retired
            && fences[o.uid] == if o.uid in previous && previous[o.uid].generation == o.generation then previous[o.uid]
                                else Fence(o.uid, o.generation, o.generation, false, o.source)
  {
    var before := observations[..|observations| - 1];
    if n == |observations| - 1 {
      FenceUntouched(previous, present, before, observations[n].uid);
    } else {
      FenceOfCurrent(previous, present, before, n);
      assert observations[|observations| - 1].uid != observations[n].uid;
    }
  }

  /** A fence whose contribution is no longer present, or that was retired before, is retired. */
  lemma {:induction false} FenceRetires(previous: map<UID, Fence>, present: set<UID>, observations: seq<Observation>, u: UID)
    requires u in previous && (u !in present || previous[u].retired)
    requires u !in present ==> forall i :: 0 <= i < |observations| ==> observations[i].uid != u
    ensures u in Fences(previous, present, observations) && Fences(previous, present, observations)[u].retired
  {
    if observations != [] {
      FenceRetires(previous, present, observations[..|observations| - 1], u);
    }
  }

  /** The fences depend on which observations were made, not on their order. */
  lemma {:induction false} FenceValue(previous: map<UID, Fence>, present: set<UID>, observations: seq<Observation>, n: nat)
    requires DistinctObservations(observations) && n < |observations|
    ensures FenceOf(Fences(previous, present, observations), observations[n].uid)
            == FenceOf(FenceStep(previous, Carried(previous, present), observations[n]), observations[n].uid)
  {
    var before := observations[..|observations| - 1];
    if n == |observations| - 1 {
      FenceUntouched(previous, present, before, observations[n].uid);
    } else {
      FenceValue(previous, present, before, n);
      assert observations[|observations| - 1].uid != observations[n].uid;
    }
  }

  lemma FencesPermutation(previous: map<UID, Fence>, present: set<UID>, a: seq<Observation>, b: seq<Observation>)
    requires DistinctObservations(a) && DistinctObservations(b) && forall o :: o in a <==> o in b
    ensures Fences(previous, present, a) == Fences(previous, present, b)
  {
    var x, y := Fences(previous, present, a), Fences(previous, present, b);
    forall u ensures FenceOf(x, u) == FenceOf(y, u) {
      if i :| 0 <= i < |a| && a[i].uid == u {
        FenceValue(previous, present, a, i);
        assert a[i] in b;
        var j :| 0 <= j < |b| && b[j] == a[i];
        FenceValue(previous, present, b, j);
      } else {
        FenceUntouched(previous, present, a, u);
        forall j | 0 <= j < |b| ensures b[j].uid != u {
          assert b[j] in a;
        }
        FenceUntouched(previous, present, b, u);
      }
    }
    forall u ensures u in x <==> u in y { assert FenceOf(x, u) == FenceOf(y, u); }
    forall u | u in x ensures x[u] == y[u] { assert FenceOf(x, u) == FenceOf(y, u); }
  }
}
