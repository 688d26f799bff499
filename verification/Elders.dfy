/** One more registration: where it goes by age, and what decides the verdicts on the others. */
module Elders {
  import opened Text
  import opened Sorting
  import opened Sources
  import opened ClaimTable
  import opened Compiler
  import opened CompilerProofs

  lemma RegistrationOrder(regs: seq<Registration>)
    requires DistinctRegistrations(regs)
    ensures Ordering(OlderRegistration) && Separates(OlderRegistration, regs)
  {
    forall a: Registration, b: Registration ensures OlderRegistration(a, b) || OlderRegistration(b, a) { LeqTotal(a.uid, b.uid); }
    forall a: Registration, b: Registration, c: Registration | OlderRegistration(a, b) && OlderRegistration(b, c)
      ensures OlderRegistration(a, c)
    {
      if a.created == c.created { LeqTransitive(a.uid, b.uid, c.uid); }
    }
    forall a, b | a in regs && b in regs && OlderRegistration(a, b) && OlderRegistration(b, a) ensures a == b {
      LeqAntisymmetric(a.uid, b.uid);
      var i, j :| 0 <= i < |regs| && 0 <= j < |regs| && regs[i] == a && regs[j] == b;
    }
  }

  lemma StaticOrder(sets: seq<StaticSet>)
    requires DistinctStatics(sets)
    ensures Ordering(OlderStatic) && Separates(OlderStatic, sets)
  {
    forall a: StaticSet, b: StaticSet ensures OlderStatic(a, b) || OlderStatic(b, a) { LeqTotal(a.uid, b.uid); }
    forall a: StaticSet, b: StaticSet, c: StaticSet | OlderStatic(a, b) && OlderStatic(b, c) ensures OlderStatic(a, c) {
      if a.created == c.created { LeqTransitive(a.uid, b.uid, c.uid); }
    }
    forall a, b | a in sets && b in sets && OlderStatic(a, b) && OlderStatic(b, a) ensures a == b {
      LeqAntisymmetric(a.uid, b.uid);
      var i, j :| 0 <= i < |sets| && 0 <= j < |sets| && sets[i] == a && sets[j] == b;
    }
  }

  // ----- one more registration ----------------------------------------------

  function Plus(inp: Input, r: Registration): Input {
    inp.(registrations := inp.registrations + [r])
  }

  /** The list with the registration at its place is the sorted list of all. */
  lemma InsertedSorted(regs: seq<Registration>, r: Registration)
    requires DistinctRegistrations(regs + [r])
    ensures Sort(OlderRegistration, regs + [r]) == Insert(OlderRegistration, r, Sort(OlderRegistration, regs))
  {
    var s, all := Sort(OlderRegistration, regs), regs + [r];
    RegistrationOrder(all);
    SortSorted(OlderRegistration, regs);
    SortSorted(OlderRegistration, all);
    InsertSorted(OlderRegistration, r, s);
    SameMembers(Sort(OlderRegistration, all), all);
    SortedUnique(OlderRegistration, Sort(OlderRegistration, all), Insert(OlderRegistration, r, s));
  }

  /** Where the registration goes: exactly the older ones stay in front, in the same order. */
  lemma SortedPlus(regs: seq<Registration>, r: Registration) returns (front: seq<Registration>, back: seq<Registration>)
    requires DistinctRegistrations(regs + [r])
    ensures Sort(OlderRegistration, regs) == front + back
    ensures Sort(OlderRegistration, regs + [r]) == front + ([r] + back)
    ensures (forall x :: x in regs && OlderRegistration(x, r) ==> x !in back) && forall y :: y in back ==> y in regs
    ensures forall x :: x in front ==> x in regs && OlderRegistration(x, r)
  {
    front, back := InsertedAt(r, Sort(OlderRegistration, regs));
    InsertedSorted(regs, r);
    Sides(regs, r, front, back);
  }

  lemma InsertedAt(r: Registration, s: seq<Registration>) returns (front: seq<Registration>, back: seq<Registration>)
    ensures s == front + back && Insert(OlderRegistration, r, s) == front + ([r] + back)
  {
    var n := InsertSplits(OlderRegistration, r, s);
    front, back := s[..n], s[n..];
    assert front + [r] + back == front + ([r] + back);
  }

  lemma Sides(regs: seq<Registration>, r: Registration, front: seq<Registration>, back: seq<Registration>)
    requires DistinctRegistrations(regs + [r])
    requires Sort(OlderRegistration, regs) == front + back && Sort(OlderRegistration, regs + [r]) == front + ([r] + back)
    ensures (forall x :: x in regs && OlderRegistration(x, r) ==> x !in back) && forall y :: y in back ==> y in regs
    ensures forall x :: x in front ==> x in regs && OlderRegistration(x, r)
  {
    var all, sorted := regs + [r], front + ([r] + back);
    RegistrationOrder(all);
    SortSorted(OlderRegistration, all);
    SameMembers(front + back, regs);
    assert sorted[|front|] == r && r in all;
    forall x | x in front ensures x in regs && OlderRegistration(x, r) {
      var i :| 0 <= i < |front| && front[i] == x;
      assert sorted[i] == x && x in front + back;
    }
    forall x | x in back ensures x in regs && !OlderRegistration(x, r) {
      var i :| 0 <= i < |back| && back[i] == x;
      assert sorted[|front| + 1 + i] == x && x in front + back;
      NotTwice(regs, r, x);
    }
  }

  lemma NotTwice(regs: seq<Registration>, r: Registration, x: Registration)
    requires DistinctRegistrations(regs + [r]) && x in regs
    ensures x.uid != r.uid && x in regs + [r]
  {
    var i :| 0 <= i < |regs| && regs[i] == x;
    assert (regs + [r])[i] == x && (regs + [r])[|regs|] == r;
  }

  lemma AsksConcat(inp: Input, a: seq<Registration>, b: seq<Registration>)
    ensures RegistrationAsks(inp, a + b) == RegistrationAsks(inp, a) + RegistrationAsks(inp, b)
  {
  }

  lemma AskUids(inp: Input, regs: seq<Registration>, u: UID)
    ensures u in RegistrationAskUids(RegistrationAsks(inp, regs)) <==> exists x :: x in regs && x.uid == u
  {
    var asks := RegistrationAsks(inp, regs);
    if a :| a in asks && a.uid == u {
      var i :| 0 <= i < |asks| && asks[i] == a;
      assert regs[i] in regs;
    }
    if x :| x in regs && x.uid == u {
      var i :| 0 <= i < |regs| && regs[i] == x;
      assert asks[i] in asks;
    }
  }

  /** The claims once the registrations in `front` have asked. */
  function FrontClaims(inp: Input, rejected: map<UID, string>, front: seq<Registration>): Claims {
    RegistrationClaims(StaticClaims(rejected, SortedStatics(inp)), RegistrationAsks(inp, front))
  }

  lemma ClaimVerdict(inp: Input, rejected: map<UID, string>, front: seq<Registration>, back: seq<Registration>, u: UID)
    requires Sort(OlderRegistration, inp.registrations) == front + back && forall y :: y in back ==> y.uid != u
    ensures var st := FrontClaims(inp, rejected, front);
            && (u in AllClaims(inp, rejected).registrations <==> u in st.registrations)
            && Reason(AllClaims(inp, rejected).reasons, u) == Reason(st.reasons, u)
  {
    AsksConcat(inp, front, back);
    AskUids(inp, back, u);
    ClaimTable.Seniority(StaticClaims(rejected, SortedStatics(inp)), RegistrationAsks(inp, front), RegistrationAsks(inp, back), u);
  }

  lemma BehindDiffer(regs: seq<Registration>, r: Registration, x: Registration, back: seq<Registration>)
    requires DistinctRegistrations(regs + [r]) && x in regs
    requires (forall y :: y in back ==> y in regs) && x !in back
    ensures forall y :: y in back ==> y.uid != x.uid
    ensures forall y :: y in [r] + back ==> y.uid != x.uid
  {
    var all := regs + [r];
    var i :| 0 <= i < |regs| && regs[i] == x;
    assert all[i] == x && all[|regs|] == r;
    forall y | y in back ensures y.uid != x.uid {
      var j :| 0 <= j < |regs| && regs[j] == y;
      assert all[j] == y;
    }
  }

  // ----- the verdicts of a compilation --------------------------------------

  /** Contributions leave the verdicts on everybody else alone. */
  lemma VerdictIs(inp: Input, rejected: map<UID, string>, u: UID)
    requires u !in ContributionUids(inp)
    ensures var st := AllClaims(inp, rejected);
            && (u in CompileInputs(inp, rejected).accepted <==> u in st.staticSets || u in st.registrations)
            && Reason(CompileInputs(inp, rejected).reasons, u) == Reason(st.reasons, u)
  {
    var st := AllClaims(inp, rejected);
    forall c | c in inp.contributions ensures c.uid != u { assert c.uid in ContributionUids(inp); }
    OtherReasons(inp, st, rejected, inp.contributions, u);
    assert u !in AcceptedContributions(inp, st, rejected, inp.contributions);
  }

  lemma RegistrationVerdictIs(inp: Input, rejected: map<UID, string>, x: Registration)
    requires WellFormed(inp) && x in inp.registrations
    ensures x.uid in CompileInputs(inp, rejected).accepted <==> x.uid in AllClaims(inp, rejected).registrations
    ensures Reason(CompileInputs(inp, rejected).reasons, x.uid) == Reason(AllClaims(inp, rejected).reasons, x.uid)
  {
    assert x.uid in RegistrationUids(inp);
    ClaimsHold(inp, rejected);
    VerdictIs(inp, rejected, x.uid);
  }
}
