/** Small concrete zones: one-letter names, and registrations that ask for one address each. */
module Scenes {
  import opened Text
  import opened Names
  import opened Sorting
  import opened Sources
  import opened ClaimTable
  import opened Compiler
  import opened SrvProofs

  const ADDRESS := "A"

  /** The name stands for itself below the apex and may carry an address. */
  predicate Plain(name: string, apex: string) {
    ZoneOwner(name, apex) == name && OwnerPermitted(name, apex, ADDRESS)
  }

  // ----- letters ------------------------------------------------------------

  lemma Letter(c: char)
    requires 'a' <= c <= 'z'
    ensures CanonicalName([c]) == [c] && TrimSpace([c]) == [c]
  {
    assert TrimLeft([c]) == [c] && TrimRight([c]) == [c];
    assert ToLower([c]) == [c];
  }

  lemma LetterPlain(c: char, z: char)
    requires 'a' <= c <= 'z' && 'a' <= z <= 'z' && c != z
    ensures Plain([c], [z])
  {
    Letter(c);
    Letter(z);
    assert [c][0] == c && [z][0] == z && |DOT + [z]| == 2;
    AddressPermitted([c], [z]);
  }

  lemma AddressPermitted(name: string, apex: string)
    ensures OwnerPermitted(name, apex, ADDRESS)
  {
    assert |ToLower(ADDRESS)| == 1;
    assert |"type65280"| == 9 && |"alias"| == 5 && |"soa"| == 3 && |"cname"| == 5;
  }

  lemma LettersDiffer(a: char, b: char)
    requires a != b
    ensures [a] != [b] && [a] != ""
  {
    assert [a][0] == a && [b][0] == b;
  }

  // ----- registrations ------------------------------------------------------

  lemma OneKey(reg: Registration, apex: string, t: RRType)
    requires reg.types == [t]
    ensures ClaimedKeys(reg, apex) == {Key(ZoneOwner(reg.owner, apex), t)}
  {
    assert t in reg.types;
  }

  const NO_CLAIMS := Claims(map[], map[], map[], {}, {}, map[])

  lemma TwoAsk(inp: Input, a: Registration, b: Registration)
    ensures RegistrationClaims(StaticClaims(Rejecting({}), []), RegistrationAsks(inp, [a, b]))
            == RegistrationStep(RegistrationStep(NO_CLAIMS, RegistrationAskOf(inp, a)), RegistrationAskOf(inp, b))
  {
    var p, q := RegistrationAskOf(inp, a), RegistrationAskOf(inp, b);
    assert Rejecting({}) == map[];
    assert RegistrationAsks(inp, [a, b]) == [p, q];
    assert [p, q][..1] == [p] && [p][..0] == [];
    assert RegistrationClaims(NO_CLAIMS, [p]) == RegistrationStep(NO_CLAIMS, p);
  }

  lemma InTurn(inp: Input, a: Registration, b: Registration)
    requires inp.statics == [] && a.created < b.created && inp.registrations == [a, b]
    ensures AllClaims(inp, Rejecting({})) == RegistrationStep(RegistrationStep(NO_CLAIMS, RegistrationAskOf(inp, a)), RegistrationAskOf(inp, b))
  {
    SortedPair(a, b);
    TwoAsk(inp, a, b);
    assert SortedStatics(inp) == [];
  }

  lemma SortedPair(a: Registration, b: Registration)
    requires a.created < b.created
    ensures Sort(OlderRegistration, [a, b]) == [a, b]
  {
    assert [a, b][1..] == [b] && [b][1..] == [];
    assert Sort(OlderRegistration, [b]) == [b];
  }

  lemma TwoRegistrations(inp: Input, p: Registration, q: Registration)
    requires inp.registrations == [p, q] && p.uid != q.uid
    ensures RegistrationUids(inp) == {p.uid, q.uid} && DistinctRegistrations(inp.registrations)
  {
    assert p in inp.registrations && q in inp.registrations;
  }

  lemma Acceptable(inp: Input, reg: Registration, ref: ObjectRef)
    requires !reg.deleting && 1 <= reg.ttl <= MAX_TTL_SECONDS && reg.zone == inp.zone.name && reg.uid != ""
    requires reg.uid in inp.references && inp.references[reg.uid] == ref
    requires RefMatches(ref, inp.zone.name, inp.zone.uid, inp.zone.generation)
    requires OwnsScopes(inp, reg, Apex(inp)) && ReservationValid(inp, reg, Apex(inp))
    requires reg.types == [ADDRESS] && Plain(reg.owner, Apex(inp))
    ensures RegistrationAskOf(inp, reg) == RegistrationAsk(reg.uid, Accept, {Key(reg.owner, ADDRESS)})
  {
    OneKey(reg, Apex(inp), ADDRESS);
  }
}
