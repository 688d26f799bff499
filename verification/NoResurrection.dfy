/**
 * The compiler and the publication protocol together: along the commits of
 * any run, until the zone is withdrawn, fences only advance and nothing fenced
 * off is published again.
 */
module NoResurrection {
  import opened Text
  import opened Sorting
  import opened Sources
  import opened ClaimTable
  import opened FenceTable
  import opened Aggregation
  import opened Compiler
  import opened CompilerProofs
  import opened SrvProofs
  import opened Wire
  import opened Succession

  /** The plan as it is known after it has been read back. */
  function PreviousPlan(p: WirePlan): Plan {
    Plan(p.zone, p.apex, [], [], [], p.fences, p.registrations)
  }

  function WithPrevious(inp: Input, previous: Option<WirePlan>): Input {
    inp.(previous := if previous.Some? then Some(PreviousPlan(previous.value)) else None)
  }

  /** What compileZone publishes for an input, given the plan it loaded; `valid` is the wire plan's own validation. */
  ghost function CompileWire(valid: WirePlan -> bool, previous: Option<WirePlan>, inp: Input): Option<WirePlan> {
    var i := WithPrevious(inp, previous);
    if !WellFormed(i) || Compile(i).None? then None
    else
      var p := ToWire(Compile(i).value.plan);
      if p.Some? && valid(p.value) then p else None
  }

  // ----- one compilation ----------------------------------------------------

  lemma PlanInUidOrder(fences: map<UID, Fence>)
    requires Keyed(fences)
    ensures Sorted(FenceLeq, PlanFences(fences))
  {
    UidLinear();
    var uids := SortedSet(Leq, fences.Keys);
    assert forall i :: 0 <= i < |uids| ==> uids[i] in uids && PlanFences(fences)[i].uid == uids[i];
  }

  lemma CompiledFences(inp: Input)
    requires WellFormed(inp) && Compile(inp).Some?
    ensures DistinctFences(Compile(inp).value.plan.contributions)
    ensures Sorted(FenceLeq, Compile(inp).value.plan.contributions)
    ensures inp.previous.Some? ==> KeepsFences(inp.previous.value.contributions, Compile(inp).value.plan.contributions)
  {
    var rejected := Rejecting(FinalRejected(inp));
    var st := AllClaims(inp, rejected);
    FinalFencesKeyed(inp, st);
    PlanFencesDistinct(FinalFences(inp, st));
    PlanInUidOrder(FinalFences(inp, st));
    if inp.previous.Some? {
      forall f | f in inp.previous.value.contributions
        ensures exists g :: g in Compile(inp).value.plan.contributions && Advances(f, g)
      {
        PlanKeepsFences(inp, rejected, f);
      }
    }
  }

  lemma WireFences(valid: WirePlan -> bool, previous: Option<WirePlan>, inp: Input)
    requires CompileWire(valid, previous, inp).Some?
    ensures var p := CompileWire(valid, previous, inp).value;
            && DistinctFences(p.fences)
            && p.fences == Compile(WithPrevious(inp, previous)).value.plan.contributions
            && (previous.Some? ==> KeepsFences(previous.value.fences, p.fences))
  {
    var i := WithPrevious(inp, previous);
    CompiledFences(i);
    FencesInOrder(Compile(i).value.plan);
  }

  /** The contribution behind a published record. */
  lemma RecordSource(inp: Input, rejected: map<UID, string>, s: RRSet, i: nat) returns (c: Contribution)
    requires WellFormed(inp) && s in CompileInputs(inp, rejected).plan.rrsets && i < |s.records| && i < |s.uids|
    ensures c in inp.contributions && c.uid == s.uids[i]
    ensures ContributionReason(inp, AllClaims(inp, rejected), rejected, c) == ""
  {
    var st := AllClaims(inp, rejected);
    EntriesUnmixed(inp, rejected);
    RRSetRecords(inp.marshal, Entries(inp, st, rejected), s, i);
    var e :| e in Entries(inp, st, rejected) && e.uid == Some(s.uids[i]);
    c := EntrySource(inp, st, rejected, e);
  }

  lemma EntrySource(inp: Input, st: Claims, rejected: map<UID, string>, e: Entry) returns (c: Contribution)
    requires e in Entries(inp, st, rejected) && e.uid.Some?
    ensures c in inp.contributions && Some(c.uid) == e.uid && ContributionReason(inp, st, rejected, c) == ""
  {
    if e in FlatMap(EntriesOf(inp, st, rejected), inp.contributions) {
      var reg, part, record;
      c, reg, part, record := ContributedEntry(inp, st, rejected, e);
    } else {
      var rs, record := StaticEntry(inp, st, e);
      assert false;
    }
  }

  /** A plan record of a contribution carries its live fence, which is not below the fence before it. */
  lemma RecordAtFence(inp: Input, s: RRSet, i: nat) returns (g: Fence)
    requires WellFormed(inp) && Compile(inp).Some?
    requires s in Compile(inp).value.plan.rrsets && i < |s.records| && i < |s.uids|
    ensures g in Compile(inp).value.plan.contributions && g.uid == s.uids[i] && !g.retired
    ensures g.uid in PreviousFences(inp) ==>
              !PreviousFences(inp)[g.uid].retired && PreviousFences(inp)[g.uid].generation <= g.generation
  {
    var rejected := Rejecting(FinalRejected(inp));
    var c := RecordSource(inp, rejected, s, i);
    g := PublishedAtFence(inp, rejected, c);
    if c.uid in PreviousFences(inp) {
      PublishedAbovePrevious(inp, AllClaims(inp, rejected), rejected, c);
    }
  }

  lemma WireRecordAt(plan: Plan, k: nat, i: nat)
    requires ToWire(plan).Some? && k < |ToWire(plan).value.rrsets| && i < |ToWire(plan).value.rrsets[k].records|
    ensures |ToWire(plan).value.rrsets| == |plan.rrsets|
    ensures |ToWire(plan).value.rrsets[k].records| == |plan.rrsets[k].records|
    ensures var u := ToWire(plan).value.rrsets[k].records[i].uid;
            u != "" ==> i < |plan.rrsets[k].uids| && plan.rrsets[k].uids[i] == u
  {
  }

  lemma WireRecordFence(inp: Input, k: nat, i: nat) returns (g: Fence)
    requires WellFormed(inp) && Compile(inp).Some? && ToWire(Compile(inp).value.plan).Some?
    requires var p := ToWire(Compile(inp).value.plan).value;
             k < |p.rrsets| && i < |p.rrsets[k].records| && p.rrsets[k].records[i].uid != ""
    ensures var p := ToWire(Compile(inp).value.plan).value;
            && g in Compile(inp).value.plan.contributions && !g.retired
            && g.uid == p.rrsets[k].records[i].uid && g.generation == p.rrsets[k].records[i].generation
    ensures g.uid in PreviousFences(inp) ==>
              !PreviousFences(inp)[g.uid].retired && PreviousFences(inp)[g.uid].generation <= g.generation
  {
    var plan := Compile(inp).value.plan;
    WireRecordAt(plan, k, i);
    g := RecordAtFence(inp, plan.rrsets[k], i);
    CompiledFences(inp);
    RecordsCarryFences(plan, k, i, g);
  }

  /** Nothing is published that the plan before it, or the plan itself, fences off. */
  lemma WireRespectsFences(valid: WirePlan -> bool, previous: Option<WirePlan>, inp: Input, f: Fence)
    requires CompileWire(valid, previous, inp).Some? && f.uid != ""
    requires (previous.Some? && f in previous.value.fences) || f in CompileWire(valid, previous, inp).value.fences
    ensures NotFencedOff(f, CompileWire(valid, previous, inp).value)
  {
    var i, p := WithPrevious(inp, previous), CompileWire(valid, previous, inp).value;
    WireFences(valid, previous, inp);
    forall k, n | 0 <= k < |p.rrsets| && 0 <= n < |p.rrsets[k].records| && p.rrsets[k].records[n].uid == f.uid
      ensures !f.retired && f.generation <= p.rrsets[k].records[n].generation
    {
      var g := WireRecordFence(i, k, n);
      FenceKnown(i, p.fences, f, g);
    }
  }

  lemma FenceKnown(inp: Input, fences: seq<Fence>, f: Fence, g: Fence)
    requires WellFormed(inp) && DistinctFences(fences) && g in fences && g.uid == f.uid && !g.retired
    requires (inp.previous.Some? && f in inp.previous.value.contributions) || f in fences
    requires g.uid in PreviousFences(inp) ==>
               !PreviousFences(inp)[g.uid].retired && PreviousFences(inp)[g.uid].generation <= g.generation
    ensures !f.retired && f.generation <= g.generation
  {
    if f in fences {
      var i, j :| 0 <= i < |fences| && 0 <= j < |fences| && fences[i] == f && fences[j] == g;
    } else {
      var i :| 0 <= i < |inp.previous.value.contributions| && inp.previous.value.contributions[i] == f;
      FenceMapAt(inp.previous.value.contributions, i);
    }
  }

  lemma CompilationFollows(valid: WirePlan -> bool, previous: Option<WirePlan>, inp: Input)
    requires CompileWire(valid, previous, inp).Some?
    ensures Follows(previous, CompileWire(valid, previous, inp).value)
  {
    var p := CompileWire(valid, previous, inp).value;
    WireFences(valid, previous, inp);
    forall f | f in p.fences ensures NotFencedOff(f, p) {
      WireRespectsFences(valid, previous, inp, f);
    }
    if previous.Some? {
      forall f | f in previous.value.fences && f.uid != "" ensures NotFencedOff(f, p) {
        WireRespectsFences(valid, previous, inp, f);
      }
    }
  }

  // ----- after a withdrawal -------------------------------------------------

  /** A zone without sources. */
  const BARE := Input(Zone("z", "u", 1, "a", true, false), [], map[], [], [], [], None, r => "", s => false)

  lemma BareZone()
    ensures WellFormed(BARE) && Compile(BARE).Some? && Compile(BARE).value.plan.contributions == []
  {
    assert ContributionUids(BARE) == {} && RegistrationUids(BARE) == {} && StaticUids(BARE) == {};
  }
}
