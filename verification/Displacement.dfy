/** A managed zone in which one young registration displaces an old one and lets a refused one in. */
module Displacement {
  import opened Text
  import opened Names
  import opened Sorting
  import opened Sources
  import opened ClaimTable
  import opened Compiler
  import opened SrvProofs
  import opened Elders
  import opened Reservations
  import opened Scenes

  /**
   * In the zone `z`, registrations `u` and `v` both ask for the name `x`. The
   * older one, `u`, also reserves the subtree `s`. The youngest, `w`, asks for
   * the name `y` and reserves `s` too.
   */
  datatype Scene = Scene(z: UID, apex: string, u: UID, v: UID, w: UID, x: string, y: string, s: string)

  predicate Spelled(g: Scene) {
    && CanonicalName(g.apex) == g.apex && Plain(g.x, g.apex)
    && RelativeOwner(g.x, g.apex) == g.x && RelativeOwner(g.s, g.apex) == g.s && !Within(g.x, g.s)
  }

  predicate Apart(g: Scene) {
    g.z != "" && "" !in {g.u, g.v, g.w} && g.u != g.v && g.u != g.w && g.v != g.w
  }

  function First(g: Scene): Registration {
    Registration(g.u, g.u, 1, 0, false, g.apex, g.x, [ADDRESS], 10, [g.s])
  }

  function Second(g: Scene): Registration {
    Registration(g.v, g.v, 1, 1, false, g.apex, g.x, [ADDRESS], 10, [])
  }

  function Third(g: Scene): Registration {
    Registration(g.w, g.w, 1, 2, false, g.apex, g.y, [ADDRESS], 10, [g.s])
  }

  function Managed(g: Scene, marshal: RecordEntry -> string, subdomain: string -> bool): Input {
    var here := ObjectRef(g.apex, g.z, 0);
    Input(Zone(g.apex, g.z, 1, g.apex, true, true), [], map[g.u := here, g.v := here, g.w := here], [First(g), Second(g)],
          [], [], None, marshal, subdomain)
  }

  lemma WellManaged(g: Scene, marshal: RecordEntry -> string, subdomain: string -> bool)
    requires Apart(g)
    ensures WellFormed(Managed(g, marshal, subdomain)) && WellFormed(Plus(Managed(g, marshal, subdomain), Third(g)))
  {
    var inp := Managed(g, marshal, subdomain);
    TwoRegistrations(inp, First(g), Second(g));
    assert RegistrationUids(Plus(inp, Third(g))) == RegistrationUids(inp) + {g.w};
    assert StaticUids(inp) == {} && ContributionUids(inp) == {};
  }

  // ----- before -------------------------------------------------------------

  lemma FirstAsks(g: Scene, marshal: RecordEntry -> string, subdomain: string -> bool)
    requires Spelled(g) && Apart(g) && subdomain(g.s)
    ensures RegistrationAskOf(Managed(g, marshal, subdomain), First(g)) == RegistrationAsk(g.u, Accept, {Key(g.x, ADDRESS)})
  {
    assert OwnsScopes(Managed(g, marshal, subdomain), First(g), g.apex);
    Acceptable(Managed(g, marshal, subdomain), First(g), ObjectRef(g.apex, g.z, 0));
  }

  lemma SecondAsks(g: Scene, marshal: RecordEntry -> string, subdomain: string -> bool)
    requires Spelled(g) && Apart(g)
    ensures RegistrationAskOf(Managed(g, marshal, subdomain), Second(g)) == RegistrationAsk(g.v, Accept, {Key(g.x, ADDRESS)})
  {
    assert OwnsScopes(Managed(g, marshal, subdomain), Second(g), g.apex);
    Acceptable(Managed(g, marshal, subdomain), Second(g), ObjectRef(g.apex, g.z, 0));
  }

  /** Of two registrations after one key the first gets it. */
  lemma FirstTakes(p: RegistrationAsk, q: RegistrationAsk, k: Key)
    requires p.verdict == q.verdict == Accept && p.keys == q.keys == {k} && p.uid != q.uid
    ensures var st := RegistrationStep(RegistrationStep(NO_CLAIMS, p), q);
            st.registrations == {p.uid} && st.reasons == map[q.uid := "NameConflict"]
  {
    var one := GrantRegistration(NO_CLAIMS, p);
    assert RegistrationStep(NO_CLAIMS, p) == one;
    assert Contested(one.held, k, q.uid);
  }

  lemma ClaimsBefore(g: Scene, marshal: RecordEntry -> string, subdomain: string -> bool)
    requires Spelled(g) && Apart(g) && subdomain(g.s)
    ensures var st := AllClaims(Managed(g, marshal, subdomain), Rejecting({}));
            st.registrations == {g.u} && st.reasons == map[g.v := "NameConflict"]
  {
    var inp := Managed(g, marshal, subdomain);
    FirstAsks(g, marshal, subdomain);
    SecondAsks(g, marshal, subdomain);
    InTurn(inp, First(g), Second(g));
    FirstTakes(RegistrationAskOf(inp, First(g)), RegistrationAskOf(inp, Second(g)), Key(g.x, ADDRESS));
  }

  lemma Before(g: Scene, marshal: RecordEntry -> string, subdomain: string -> bool)
    requires Spelled(g) && Apart(g) && subdomain(g.s)
    ensures var before := CompileInputs(Managed(g, marshal, subdomain), Rejecting({}));
            g.u in before.accepted && g.v !in before.accepted && Reason(before.reasons, g.v) == "NameConflict"
  {
    var inp := Managed(g, marshal, subdomain);
    ClaimsBefore(g, marshal, subdomain);
    WellManaged(g, marshal, subdomain);
    RegistrationVerdictIs(inp, Rejecting({}), First(g));
    RegistrationVerdictIs(inp, Rejecting({}), Second(g));
  }

  // ----- after --------------------------------------------------------------

  lemma OverlapsFirst(g: Scene, marshal: RecordEntry -> string, subdomain: string -> bool)
    requires Spelled(g) && Apart(g) && subdomain(g.s)
    ensures Overlaps(Managed(g, marshal, subdomain), Third(g), First(g))
  {
    assert Reserves(Managed(g, marshal, subdomain), Third(g), g.s) && g.s in First(g).reserved && Within(g.s, g.s);
  }

  /** The subtree of the youngest is in the way of the oldest, and only of that one. */
  lemma OldestRefused(g: Scene, marshal: RecordEntry -> string, subdomain: string -> bool)
    requires Spelled(g) && Apart(g) && subdomain(g.s)
    ensures var inp := Managed(g, marshal, subdomain);
            && RegistrationAskOf(Plus(inp, Third(g)), First(g)) == RegistrationAsk(g.u, Refuse(RESERVED), {Key(g.x, ADDRESS)})
            && RegistrationAskOf(Plus(inp, Third(g)), Second(g)) == RegistrationAsk(g.v, Accept, {Key(g.x, ADDRESS)})
  {
    var inp := Managed(g, marshal, subdomain);
    FirstAsks(g, marshal, subdomain);
    SecondAsks(g, marshal, subdomain);
    OverlapsFirst(g, marshal, subdomain);
    Pushed(inp, Third(g), First(g));
    VerdictPlus(inp, Third(g), Second(g));
  }

  /** An accepted registration in the way of a new subtree is refused. */
  lemma Pushed(inp: Input, r: Registration, x: Registration)
    requires inp.zone.managed && RegistrationVerdict(inp, x) == Accept && Overlaps(inp, r, x) && r.uid != x.uid
    ensures RegistrationVerdict(Plus(inp, r), x) == Refuse(RESERVED)
  {
    VerdictShape(inp, x);
    VerdictPlus(inp, r, x);
  }

  lemma SecondTakes(p: RegistrationAsk, q: RegistrationAsk, k: Key)
    requires p.verdict == Refuse(RESERVED) && q.verdict == Accept && q.keys == {k} && p.uid != q.uid
    ensures var st := RegistrationStep(RegistrationStep(NO_CLAIMS, p), q);
            st.registrations == {q.uid} && st.reasons == map[p.uid := RESERVED]
  {
  }

  lemma FrontPair(inp: Input, a: Registration, b: Registration)
    requires inp.statics == []
    ensures FrontClaims(inp, Rejecting({}), [a, b]) == RegistrationStep(RegistrationStep(NO_CLAIMS, RegistrationAskOf(inp, a)), RegistrationAskOf(inp, b))
  {
    TwoAsk(inp, a, b);
    assert SortedStatics(inp) == [];
  }

  lemma AllThree(g: Scene, marshal: RecordEntry -> string, subdomain: string -> bool)
    requires Apart(g)
    ensures Sort(OlderRegistration, Plus(Managed(g, marshal, subdomain), Third(g)).registrations) == [First(g), Second(g)] + [Third(g)]
  {
    var s := [First(g), Second(g), Third(g)];
    assert Plus(Managed(g, marshal, subdomain), Third(g)).registrations == s == [First(g), Second(g)] + [Third(g)];
    assert s[1..] == [Second(g), Third(g)];
    SortedPair(Second(g), Third(g));
  }

  /** What the first two get, the third leaves alone. */
  lemma PairDecides(inp: Input, a: Registration, b: Registration, c: Registration, x: Registration)
    requires WellFormed(inp) && inp.statics == [] && Sort(OlderRegistration, inp.registrations) == [a, b] + [c]
    requires x in inp.registrations && x.uid != c.uid
    ensures var st := RegistrationStep(RegistrationStep(NO_CLAIMS, RegistrationAskOf(inp, a)), RegistrationAskOf(inp, b));
            && (x.uid in CompileInputs(inp, Rejecting({})).accepted <==> x.uid in st.registrations)
            && Reason(CompileInputs(inp, Rejecting({})).reasons, x.uid) == Reason(st.reasons, x.uid)
  {
    FrontPair(inp, a, b);
    ClaimVerdict(inp, Rejecting({}), [a, b], [c], x.uid);
    RegistrationVerdictIs(inp, Rejecting({}), x);
  }

  lemma StepsAfter(g: Scene, marshal: RecordEntry -> string, subdomain: string -> bool)
    requires Spelled(g) && Apart(g) && subdomain(g.s)
    ensures var plus := Plus(Managed(g, marshal, subdomain), Third(g));
            var st := RegistrationStep(RegistrationStep(NO_CLAIMS, RegistrationAskOf(plus, First(g))), RegistrationAskOf(plus, Second(g)));
            st.registrations == {g.v} && st.reasons == map[g.u := RESERVED]
  {
    OldestRefused(g, marshal, subdomain);
    SecondTakes(RegistrationAsk(g.u, Refuse(RESERVED), {Key(g.x, ADDRESS)}), RegistrationAsk(g.v, Accept, {Key(g.x, ADDRESS)}), Key(g.x, ADDRESS));
  }

  lemma After(g: Scene, marshal: RecordEntry -> string, subdomain: string -> bool)
    requires Spelled(g) && Apart(g) && subdomain(g.s)
    ensures var after := CompileInputs(Plus(Managed(g, marshal, subdomain), Third(g)), Rejecting({}));
            g.u !in after.accepted && Reason(after.reasons, g.u) == RESERVED && g.v in after.accepted
  {
    var plus := Plus(Managed(g, marshal, subdomain), Third(g));
    AllThree(g, marshal, subdomain);
    WellManaged(g, marshal, subdomain);
    StepsAfter(g, marshal, subdomain);
    PairDecides(plus, First(g), Second(g), Third(g), First(g));
    PairDecides(plus, First(g), Second(g), Third(g), Second(g));
  }

  lemma Displaced(g: Scene, marshal: RecordEntry -> string, subdomain: string -> bool)
    requires Spelled(g) && Apart(g) && subdomain(g.s)
    ensures var inp := Managed(g, marshal, subdomain);
            var before, after := CompileInputs(inp, Rejecting({})), CompileInputs(Plus(inp, Third(g)), Rejecting({}));
            && WellFormed(inp) && WellFormed(Plus(inp, Third(g)))
            && g.u in before.accepted && Reason(after.reasons, g.u) == RESERVED && g.u !in after.accepted
            && Reason(before.reasons, g.v) == "NameConflict" && g.v !in before.accepted && g.v in after.accepted
  {
    WellManaged(g, marshal, subdomain);
    Before(g, marshal, subdomain);
    After(g, marshal, subdomain);
  }

  // ----- an instance --------------------------------------------------------

  const SCENE := Scene(['o'], ['z'], ['u'], ['v'], ['w'], ['x'], ['y'], ['s'])

  lemma SceneSpelled()
    ensures Spelled(SCENE)
  {
    Letter('z');
    Letter('x');
    Letter('s');
    LetterPlain('x', 'z');
    LettersDiffer('x', 's');
    assert |DOT + ['s']| == 2 && |DOT + ['z']| == 2 && ['x'][0] != APEX[0] && ['s'][0] != APEX[0];
  }

  lemma SceneApart()
    ensures Apart(SCENE)
  {
    LettersDiffer('o', 'z');
    LettersDiffer('u', 'v');
    LettersDiffer('u', 'w');
    LettersDiffer('v', 'w');
    LettersDiffer('w', 'v');
  }

  /**
   * Adding the youngest registration refuses the oldest, which was accepted,
   * for a reserved subtree, and so accepts the second, which was refused for
   * a name conflict.
   */
  lemma YoungestDisplaces(marshal: RecordEntry -> string, subdomain: string -> bool)
    requires subdomain(SCENE.s)
    ensures var inp, u, v, w := Managed(SCENE, marshal, subdomain), First(SCENE), Second(SCENE), Third(SCENE);
            var before, after := CompileInputs(inp, Rejecting({})), CompileInputs(Plus(inp, w), Rejecting({}));
            && WellFormed(inp) && WellFormed(Plus(inp, w)) && inp.registrations == [u, v]
            && OlderRegistration(u, w) && OlderRegistration(v, w)
            && u.uid in before.accepted && Reason(after.reasons, u.uid) == RESERVED && u.uid !in after.accepted
            && Reason(before.reasons, v.uid) == "NameConflict" && v.uid !in before.accepted && v.uid in after.accepted
  {
    SceneSpelled();
    SceneApart();
    Displaced(SCENE, marshal, subdomain);
  }
}
