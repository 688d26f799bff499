/** Two listings of one zone that compile to different plans. */
module TtlClash {
  import opened Text
  import opened Names
  import opened Sorting
  import opened Sources
  import opened ClaimTable
  import opened Aggregation
  import opened Compiler
  import opened CompilerProofs
  import opened SrvProofs
  import opened Canonical
  import opened TtlOrder
  import opened Scenes

  /**
   * Two registrations `u` and `v` at the names `x` and `y` of the zone `z`
   * reserve the subtree `s` with different TTLs, and each has a contribution,
   * `c` and `d`, that publishes an address there.
   */
  datatype Scene = Scene(z: UID, apex: string, u: UID, v: UID, c: UID, d: UID, x: string, y: string, s: string)

  predicate Spelled(g: Scene) {
    && CanonicalName(g.apex) == g.apex && Plain(g.x, g.apex) && Plain(g.y, g.apex) && Plain(g.s, g.apex)
    && g.x != g.y && g.s != g.x && g.s != g.y
  }

  predicate Apart(g: Scene) {
    g.z != "" && "" !in {g.u, g.v, g.c, g.d} && g.u != g.v && g.c != g.d && {g.u, g.v} !! {g.c, g.d}
  }

  function Short(g: Scene): Registration {
    Registration(g.x, g.u, 1, 0, false, g.apex, g.x, [ADDRESS], 10, [g.s])
  }

  function Long(g: Scene): Registration {
    Registration(g.y, g.v, 1, 1, false, g.apex, g.y, [ADDRESS], 20, [g.s])
  }

  function Part(g: Scene): ContributionSet {
    ContributionSet(ADDRESS, [RecordEntry(g.s, None, "1", None)])
  }

  function From(g: Scene, uid: UID, reg: Registration): Contribution {
    Contribution(uid, uid, 1, false, ObjectRef(reg.name, reg.uid, reg.generation), true, [Part(g)])
  }

  function FromShort(g: Scene): Contribution {
    From(g, g.c, Short(g))
  }

  function FromLong(g: Scene): Contribution {
    From(g, g.d, Long(g))
  }

  function Listing(g: Scene, marshal: RecordEntry -> string, cs: seq<Contribution>): Input {
    var here := ObjectRef(g.apex, g.z, 0);
    Input(Zone(g.apex, g.z, 1, g.apex, true, false), [], map[g.u := here, g.v := here], [Short(g), Long(g)], cs, [], None,
          marshal, (s: string) => true)
  }

  function Listed(g: Scene, marshal: RecordEntry -> string): Input {
    Listing(g, marshal, [FromShort(g), FromLong(g)])
  }

  // ----- claims -------------------------------------------------------------

  function KeyX(g: Scene): Key {
    Key(g.x, ADDRESS)
  }

  function KeyY(g: Scene): Key {
    Key(g.y, ADDRESS)
  }

  function KeyS(g: Scene): Key {
    Key(g.s, ADDRESS)
  }

  lemma Asked(g: Scene, marshal: RecordEntry -> string, reg: Registration)
    requires Spelled(g) && Apart(g) && (reg == Short(g) || reg == Long(g))
    ensures RegistrationAskOf(Listed(g, marshal), reg) == RegistrationAsk(reg.uid, Accept, {Key(reg.owner, ADDRESS)})
  {
    Acceptable(Listed(g, marshal), reg, ObjectRef(g.apex, g.z, 0));
  }

  lemma BothAccepted(g: Scene, marshal: RecordEntry -> string)
    requires Spelled(g) && Apart(g)
    ensures var st := AllClaims(Listed(g, marshal), Rejecting({})); st.registrations == {g.u, g.v} && st.held.Keys == {KeyX(g), KeyY(g)}
  {
    Asked(g, marshal, Short(g));
    Asked(g, marshal, Long(g));
    InTurn(Listed(g, marshal), Short(g), Long(g));
    TwoGranted(RegistrationAsk(g.u, Accept, {KeyX(g)}), RegistrationAsk(g.v, Accept, {KeyY(g)}), KeyX(g), KeyY(g));
  }

  /** Two registrations with one key each, at different names. */
  lemma TwoGranted(p: RegistrationAsk, q: RegistrationAsk, k: Key, l: Key)
    requires p.verdict == q.verdict == Accept && p.keys == {k} && q.keys == {l} && k.name != l.name
    ensures var st := RegistrationStep(RegistrationStep(NO_CLAIMS, p), q); st.registrations == {p.uid, q.uid} && st.held.Keys == {k, l}
  {
    var one := GrantRegistration(NO_CLAIMS, p);
    assert one.held.Keys == {k};
    assert RegistrationStep(NO_CLAIMS, p) == one;
  }

  // ----- contributions ------------------------------------------------------

  lemma WellListed(g: Scene, marshal: RecordEntry -> string)
    requires Apart(g)
    ensures WellFormed(Listed(g, marshal))
  {
    var inp := Listed(g, marshal);
    TwoRegistrations(inp, Short(g), Long(g));
    assert FromShort(g) in inp.contributions && FromLong(g) in inp.contributions;
    assert ContributionUids(inp) == {g.c, g.d} && StaticUids(inp) == {};
  }

  lemma FoundBoth(p: Registration, q: Registration)
    requires p.uid != q.uid
    ensures FindRegistration([p, q], p.uid) == Some(p) && FindRegistration([p, q], q.uid) == Some(q)
  {
    assert [p, q][..1] == [p];
    assert FindRegistration([p], p.uid) == Some(p);
  }

  lemma RecordIsValid(held: map<Key, UID>, reg: Registration, apex: string, part: ContributionSet, record: RecordEntry)
    requires part.rtype in reg.types && record.content != "" && reg.reserved == [record.name]
    requires ZoneOwner(record.name, apex) == record.name && OwnerPermitted(record.name, apex, part.rtype)
    requires !Contested(held, Key(record.name, part.rtype), reg.uid)
    ensures RecordValid(held, reg, apex, part, record)
  {
    assert record.name in reg.reserved && NameInScope(record.name, record.name, apex);
  }

  lemma Uncontested(g: Scene, held: map<Key, UID>, uid: UID)
    requires g.s != g.x && g.s != g.y && held.Keys == {KeyX(g), KeyY(g)}
    ensures !Contested(held, KeyS(g), uid)
  {
    assert |ADDRESS| != |CNAME|;
    assert KeyS(g) !in held && Key(g.s, CNAME) !in held;
  }

  lemma PartIsValid(g: Scene, held: map<Key, UID>, reg: Registration)
    requires Spelled(g) && held.Keys == {KeyX(g), KeyY(g)} && reg.types == [ADDRESS] && reg.reserved == [g.s]
    ensures PartValid(held, reg, g.apex, Part(g))
  {
    Uncontested(g, held, reg.uid);
    RecordIsValid(held, reg, g.apex, Part(g), Part(g).records[0]);
  }

  lemma NoReason(inp: Input, st: Claims, c: Contribution, reg: Registration)
    requires RegistrationOf(inp, st, c) == Some(reg) && inp.previous.None?
    requires c.registration == ObjectRef(reg.name, reg.uid, reg.generation) && c.generation == 1 && !c.deleting && c.eligible
    requires BundleValid(st.held, reg, Apex(inp), c)
    ensures ContributionReason(inp, st, Rejecting({}), c) == ""
  {
  }

  lemma Entered(g: Scene, reg: Registration, c: Contribution)
    requires Spelled(g) && c.sets == [Part(g)]
    ensures exists e :: e in FlatMap(PartEntries(reg, c, g.apex), c.sets) && e.key == KeyS(g)
  {
    var record, key := Part(g).records[0], KeyS(g);
    var e := Entry(key, Named(key, record), Some(c.uid), reg.ttl);
    assert e in RecordEntries(reg, c, g.apex, Part(g))(record);
    FlatMapMembers(RecordEntries(reg, c, g.apex, Part(g)), Part(g).records, e);
    FlatMapMembers(PartEntries(reg, c, g.apex), c.sets, e);
  }

  lemma Belongs(g: Scene, marshal: RecordEntry -> string, uid: UID, reg: Registration)
    requires Spelled(g) && Apart(g) && (reg == Short(g) || reg == Long(g))
    ensures var inp := Listed(g, marshal);
            var st := AllClaims(inp, Rejecting({}));
            RegistrationOf(inp, st, From(g, uid, reg)) == Some(reg) && BundleValid(st.held, reg, g.apex, From(g, uid, reg))
  {
    BothAccepted(g, marshal);
    FoundBoth(Short(g), Long(g));
    PartIsValid(g, AllClaims(Listed(g, marshal), Rejecting({})).held, reg);
    assert forall part :: part in From(g, uid, reg).sets ==> part == Part(g);
  }

  lemma PublishesAt(inp: Input, st: Claims, c: Contribution, reg: Registration, key: Key)
    requires RegistrationOf(inp, st, c) == Some(reg) && ContributionReason(inp, st, Rejecting({}), c) == ""
    requires exists e :: e in FlatMap(PartEntries(reg, c, Apex(inp)), c.sets) && e.key == key
    ensures Publishes(inp, st, Rejecting({}), c, key) && TtlOf(inp, st, c) == reg.ttl
  {
    var e :| e in FlatMap(PartEntries(reg, c, Apex(inp)), c.sets) && e.key == key;
    assert e in EntriesOf(inp, st, Rejecting({}))(c);
  }

  /** Each contribution publishes at the name both subtrees hold. */
  lemma Published(g: Scene, marshal: RecordEntry -> string, uid: UID, reg: Registration)
    requires Spelled(g) && Apart(g) && (reg == Short(g) || reg == Long(g))
    ensures var inp := Listed(g, marshal);
            var st := AllClaims(inp, Rejecting({}));
            Publishes(inp, st, Rejecting({}), From(g, uid, reg), KeyS(g)) && TtlOf(inp, st, From(g, uid, reg)) == reg.ttl
  {
    var inp, c := Listed(g, marshal), From(g, uid, reg);
    var st := AllClaims(inp, Rejecting({}));
    Belongs(g, marshal, uid, reg);
    assert Apex(inp) == g.apex;
    NoReason(inp, st, c, reg);
    Entered(g, reg, c);
    PublishesAt(inp, st, c, reg, KeyS(g));
  }

  // ----- nobody is rejected -------------------------------------------------

  lemma OnlyAddresses(inp: Input, s: RRSet)
    requires inp.statics == [] && s in CompileInputs(inp, Rejecting({})).plan.rrsets
    requires forall c, part :: c in inp.contributions && part in c.sets ==> part.rtype == ADDRESS
    ensures s.rtype == ADDRESS
  {
    var st := AllClaims(inp, Rejecting({}));
    var e := RRSetTtlIs(inp.marshal, Entries(inp, st, Rejecting({})), s);
    var c, reg, part, record := ContributedEntry(inp, st, Rejecting({}), e);
  }

  lemma NobodyRejected(inp: Input)
    requires WellFormed(inp) && inp.statics == []
    requires forall c, part :: c in inp.contributions && part in c.sets ==> part.rtype == ADDRESS
    ensures FinalRejected(inp) == {}
  {
    var plan := CompileInputs(inp, Rejecting({})).plan;
    assert |ADDRESS| != |SRV|;
    forall s | s in plan.rrsets ensures s.rtype != SRV { OnlyAddresses(inp, s); }
    assert BlameAfter(inp, {}) == {};
    FinalFromStep(inp, {}, {});
  }

  // ----- the two plans ------------------------------------------------------

  lemma OnlyParts(c: Contribution, d: Contribution, part: ContributionSet)
    requires c.sets == d.sets == [part]
    ensures forall x, p :: x in [c, d] && p in x.sets ==> p == part
  {
  }

  lemma Ready(g: Scene, marshal: RecordEntry -> string)
    requires Apart(g)
    ensures WellFormed(Listed(g, marshal)) && FinalRejected(Listed(g, marshal)) == {} && Compile(Listed(g, marshal)).Some?
  {
    WellListed(g, marshal);
    OnlyParts(FromShort(g), FromLong(g), Part(g));
    NobodyRejected(Listed(g, marshal));
  }

  /** Listed either way round, the RRset that both contributions share has the TTL of the first. */
  lemma EitherWay(g: Scene, marshal: RecordEntry -> string)
    requires Spelled(g) && Apart(g)
    ensures var a, b := Listed(g, marshal), Listing(g, marshal, [FromLong(g), FromShort(g)]);
            WellFormed(a) && WellFormed(b) && Reordered(a, b) && Compile(a).Some? && Compile(a) != Compile(b)
  {
    Ready(g, marshal);
    Published(g, marshal, g.c, Short(g));
    Published(g, marshal, g.d, Long(g));
    PairShows(Listed(g, marshal), FromShort(g), FromLong(g), KeyS(g));
  }

  lemma PairShows(a: Input, c: Contribution, d: Contribution, key: Key)
    requires WellFormed(a) && FinalRejected(a) == {} && Compile(a).Some? && a.contributions == [c, d]
    requires var st := AllClaims(a, Rejecting({}));
             && Publishes(a, st, Rejecting({}), c, key) && Publishes(a, st, Rejecting({}), d, key)
             && TtlOf(a, st, c) != TtlOf(a, st, d)
    ensures var b := a.(contributions := [d, c]); WellFormed(b) && Reordered(a, b) && Compile(a) != Compile(b)
  {
    TwoTtlsShow(a, 0, 1, key);
    LeadingPair(a, c, d);
  }

  lemma LeadingPair(a: Input, c: Contribution, d: Contribution)
    requires a.contributions == [c, d]
    ensures Leading(a, 0) == a && Leading(a, 1) == a.(contributions := [d, c])
  {
    assert ToFront([c, d], 0) == [c, d] && ToFront([c, d], 1) == [d, c];
  }

  // ----- an instance --------------------------------------------------------

  const SCENE := Scene(['w'], ['z'], ['u'], ['v'], ['c'], ['d'], ['x'], ['y'], ['s'])

  lemma SceneSpelled()
    ensures Spelled(SCENE)
  {
    Letter('z');
    LetterPlain('x', 'z');
    LetterPlain('y', 'z');
    LetterPlain('s', 'z');
    LettersDiffer('x', 'y');
    LettersDiffer('s', 'x');
    LettersDiffer('s', 'y');
  }

  lemma SceneApart()
    ensures Apart(SCENE)
  {
    LettersDiffer('w', 'z');
    LettersDiffer('u', 'v');
    LettersDiffer('c', 'd');
    LettersDiffer('u', 'c');
    LettersDiffer('u', 'd');
    LettersDiffer('v', 'c');
    LettersDiffer('v', 'd');
    LettersDiffer('c', 'u');
    LettersDiffer('d', 'u');
  }

  /** The order of the sources shows in the plan, whatever text records are sorted by. */
  lemma OrderShowsInTtl(marshal: RecordEntry -> string)
    ensures var a := Listing(SCENE, marshal, [FromShort(SCENE), FromLong(SCENE)]);
            var b := Listing(SCENE, marshal, [FromLong(SCENE), FromShort(SCENE)]);
            WellFormed(a) && WellFormed(b) && Reordered(a, b) && Compile(a).Some? && Compile(a) != Compile(b)
  {
    SceneSpelled();
    SceneApart();
    EitherWay(SCENE, marshal);
  }
}
