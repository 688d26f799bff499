/** Plans that follow one another: fences only advance and nothing fenced off is published. */
module Succession {
  import opened Text
  import opened Sources
  import opened FenceTable
  import opened Wire

  ghost predicate KeepsFences(before: seq<Fence>, after: seq<Fence>) {
    forall f :: f in before ==> exists g :: g in after && Advances(f, g)
  }

  /** A record of `p` published for a contribution fenced by `f` is not fenced off by it. */
  ghost predicate NotFencedOff(f: Fence, p: WirePlan) {
    forall k, i :: 0 <= k < |p.rrsets| && 0 <= i < |p.rrsets[k].records| && p.rrsets[k].records[i].uid == f.uid ==>
      !f.retired && f.generation <= p.rrsets[k].records[i].generation
  }

  /** `p` keeps every fence of the plan before it and publishes nothing that either plan fences off. */
  ghost predicate Follows(previous: Option<WirePlan>, p: WirePlan) {
    && (forall f :: f in p.fences ==> f.uid != "" && NotFencedOff(f, p))
    && (previous.Some? ==> KeepsFences(previous.value.fences, p.fences))
    && (previous.Some? ==> forall f :: f in previous.value.fences && f.uid != "" ==> NotFencedOff(f, p))
  }

  function Before(plans: seq<WirePlan>, k: nat): Option<WirePlan>
    requires k < |plans|
  {
    if k == 0 then None else Some(plans[k - 1])
  }

  ghost predicate Succeeds(plans: seq<WirePlan>, k: nat)
    requires k < |plans|
  {
    Follows(Before(plans, k), plans[k])
  }

  ghost predicate Successive(plans: seq<WirePlan>) {
    forall k {:trigger Succeeds(plans, k)} :: 0 <= k < |plans| ==> Succeeds(plans, k)
  }

  lemma FencesStay(plans: seq<WirePlan>, j: nat, h: Fence) returns (g: Fence)
    requires Successive(plans) && 0 < j < |plans| && h in plans[j - 1].fences
    ensures g in plans[j].fences && Advances(h, g)
  {
    assert Succeeds(plans, j);
    g :| g in plans[j].fences && Advances(h, g);
  }

  lemma FencesHold(plans: seq<WirePlan>, j: nat, h: Fence)
    requires Successive(plans) && j < |plans| && (h in plans[j].fences || (j > 0 && h in plans[j - 1].fences))
    ensures NotFencedOff(h, plans[j])
  {
    assert Succeeds(plans, j);
    if j > 0 { assert Succeeds(plans, j - 1); }
  }

  /** A fence stands, at least as strict, in every later plan. */
  lemma {:induction false} FenceStands(plans: seq<WirePlan>, j: nat, f: Fence) returns (g: Fence)
    requires Successive(plans) && j < |plans| && f in plans[0].fences
    ensures g in plans[j].fences && Advances(f, g)
  {
    if j == 0 {
      g := f;
    } else {
      var h := FenceStands(plans, j - 1, f);
      g := FencesStay(plans, j, h);
    }
  }

  lemma NothingReturns(plans: seq<WirePlan>, j: nat, f: Fence)
    requires Successive(plans) && j < |plans| && f in plans[0].fences
    ensures NotFencedOff(f, plans[j])
  {
    if j == 0 {
      FencesHold(plans, 0, f);
    } else {
      var h := FenceStands(plans, j - 1, f);
      FencesHold(plans, j, h);
    }
  }
}
