/** Admission of record sets: a name belongs to one live record set per contending type. */
module Admission {
  import opened Text
  import opened Names
  import opened Sorting
  import PowerDns

  /** A record set of one namespace; `records` are the owner names as spelled. */
  datatype RSet = RSet(name: string, created: int, deleting: bool, zone: string, rtype: string, records: seq<string>)

  datatype Claim = Claim(index: nat, owner: string)

  /** A refused record: its claim, the qualified name and the record set that holds it. */
  datatype Refusal = Refusal(claim: Claim, key: string, holder: RSet)

  predicate TypesShareName(a: string, b: string) {
    a == b || a == PowerDns.CNAME_TYPE || b == PowerDns.CNAME_TYPE
  }

  /** The qualified names of a list of owners. */
  function Held(owners: seq<string>, domain: string): set<string> {
    set owner | owner in owners :: Qualify(owner, domain)
  }

  lemma HeldNext(owners: seq<string>, domain: string, n: nat)
    requires n < |owners|
    ensures Held(owners[..n + 1], domain) == Held(owners[..n], domain) + {Qualify(owners[n], domain)}
  {
    assert owners[..n + 1] == owners[..n] + [owners[n]];
  }

  predicate Holds(rs: RSet, domain: string, key: string) {
    key in Held(rs.records, domain)
  }

  predicate Contends(other: RSet, rs: RSet) {
    other.name != rs.name && !other.deleting && other.zone == rs.zone && TypesShareName(other.rtype, rs.rtype)
  }

  predicate FirstClaimant(a: RSet, b: RSet) {
    if a.created == b.created then Leq(a.name, b.name) else a.created < b.created
  }

  /** Whose names an update does not check again. */
  predicate SamePlace(prior: Option<RSet>, rs: RSet) {
    prior.Some? && prior.value.rtype == rs.rtype && prior.value.zone == rs.zone
  }

  /** A name the record set asks for, with an owner that is not empty and was not already held. */
  predicate Asks(prior: Option<RSet>, rs: RSet, domain: string, key: string) {
    && (exists owner | owner in rs.records :: owner != "" && Qualify(owner, domain) == key)
    && !(SamePlace(prior, rs) && Holds(prior.value, domain, key))
  }

  /** Somebody else holds a name the record set asks for. */
  predicate Contested(listed: seq<RSet>, prior: Option<RSet>, rs: RSet, domain: string, key: string) {
    Asks(prior, rs, domain, key) && exists other | other in listed :: Contends(other, rs) && Holds(other, domain, key)
  }

  // ----- the webhook --------------------------------------------------------

  function Keys(records: seq<string>, domain: string): (keys: seq<string>)
    ensures |keys| == |records|
  {
    seq(|records|, i requires 0 <= i < |records| => Qualify(records[i], domain))
  }

  /** `c` is the first of the first `n` owners, the empty ones aside, whose key is `k`. */
  ghost predicate FirstNamed(owners: seq<string>, keys: seq<string>, n: nat, c: Claim, k: string)
    requires n <= |owners| == |keys|
  {
    && c.index < n && owners[c.index] == c.owner != "" && keys[c.index] == k
    && forall i :: 0 <= i < c.index && owners[i] != "" ==> keys[i] != k
  }

  ghost predicate FirstNames(owners: seq<string>, keys: seq<string>, n: nat, claims: map<string, Claim>) {
    && n <= |owners| == |keys|
    && (forall i :: 0 <= i < n && owners[i] != "" ==> keys[i] in claims)
    && (forall k :: k in claims ==> FirstNamed(owners, keys, n, claims[k], k))
  }

  lemma FirstNamesNext(owners: seq<string>, keys: seq<string>, n: nat, claims: map<string, Claim>)
    requires FirstNames(owners, keys, n, claims) && n < |owners|
    ensures FirstNames(owners, keys, n + 1,
              if owners[n] == "" || keys[n] in claims then claims else claims[keys[n] := Claim(n, owners[n])])
  {
  }

  /** The first record that names each key. */
  ghost predicate ClaimsHold(rs: RSet, domain: string, n: nat, claims: map<string, Claim>) {
    FirstNames(rs.records, Keys(rs.records, domain), n, claims)
  }

  method NewOwnerClaims(rs: RSet, domain: string) returns (claims: map<string, Claim>)
    ensures ClaimsHold(rs, domain, |rs.records|, claims)
  {
    claims := map[];
    for i := 0 to |rs.records|
      invariant ClaimsHold(rs, domain, i, claims)
    {
      FirstNamesNext(rs.records, Keys(rs.records, domain), i, claims);
      if rs.records[i] != "" {
        var k := Qualify(rs.records[i], domain);
        if k !in claims {
          claims := claims[k := Claim(i, rs.records[i])];
        }
      }
    }
  }

  /** Names of the stored object are dropped from the claims. */
  method DropHeld(stored: RSet, domain: string, claims: map<string, Claim>) returns (rest: map<string, Claim>)
    ensures forall k :: k in rest <==> k in claims && !Holds(stored, domain, k)
    ensures forall k :: k in rest ==> rest[k] == claims[k]
  {
    rest := claims;
    for i := 0 to |stored.records|
      invariant forall k :: k in rest <==> k in claims && k !in Held(stored.records[..i], domain)
      invariant forall k :: k in rest ==> rest[k] == claims[k]
    {
      HeldNext(stored.records, domain, i);
      rest := rest - {Qualify(stored.records[i], domain)};
    }
    assert stored.records[..|stored.records|] == stored.records;
  }

  /** The earliest contender seen so far for each claimed name. */
  ghost predicate HoldersHold(rs: RSet, domain: string, claims: map<string, Claim>, seen: seq<RSet>, holders: map<string, RSet>) {
    && (forall k :: k in holders ==>
          k in claims && holders[k] in seen && Contends(holders[k], rs) && Holds(holders[k], domain, k))
    && (forall k, other :: k in claims && other in seen && Contends(other, rs) && Holds(other, domain, k) ==>
          k in holders && FirstClaimant(holders[k], other))
  }

  /** One contender's names are entered. */
  method EnterHolder(other: RSet, domain: string, claims: map<string, Claim>, before: map<string, RSet>) returns (holders: map<string, RSet>)
    ensures forall k :: k in holders <==> k in before || (k in claims && Holds(other, domain, k))
    ensures forall k :: k in holders ==> holders[k] == Earliest(before, claims, Held(other.records, domain), other, k)
  {
    holders := before;
    ghost var held: set<string> := {};
    for i := 0 to |other.records|
      invariant held == Held(other.records[..i], domain)
      invariant forall k :: k in holders <==> k in before || (k in claims && k in held)
      invariant forall k :: k in holders ==> holders[k] == Earliest(before, claims, held, other, k)
    {
      HeldNext(other.records, domain, i);
      var k := Qualify(other.records[i], domain);
      held := held + {k};
      FirstClaimantOrder(other, other, other);
      if k in claims && (k !in holders || !FirstClaimant(holders[k], other)) {
        holders := holders[k := other];
      }
    }
    assert other.records[..|other.records|] == other.records;
  }

  /** The holder of `k` once `other`, holding `held`, is entered. */
  function Earliest(before: map<string, RSet>, claims: map<string, Claim>, held: set<string>, other: RSet, k: string): RSet {
    if k in before && !(k in claims && k in held && !FirstClaimant(before[k], other)) then before[k] else other
  }

  lemma FirstClaimantOrder(a: RSet, b: RSet, c: RSet)
    ensures FirstClaimant(a, b) || FirstClaimant(b, a)
    ensures FirstClaimant(a, b) && FirstClaimant(b, c) ==> FirstClaimant(a, c)
  {
    LeqTotal(a.name, b.name);
    if Leq(a.name, b.name) && Leq(b.name, c.name) { LeqTransitive(a.name, b.name, c.name); }
  }

  lemma EnteredHolds(rs: RSet, domain: string, claims: map<string, Claim>, seen: seq<RSet>, before: map<string, RSet>, other: RSet, holders: map<string, RSet>)
    requires HoldersHold(rs, domain, claims, seen, before) && Contends(other, rs)
    requires forall k :: k in holders <==> k in before || (k in claims && Holds(other, domain, k))
    requires forall k :: k in holders ==> holders[k] == Earliest(before, claims, Held(other.records, domain), other, k)
    ensures HoldersHold(rs, domain, claims, seen + [other], holders)
  {
    forall k, o | k in claims && o in seen + [other] && Contends(o, rs) && Holds(o, domain, k)
      ensures k in holders && FirstClaimant(holders[k], o)
    {
      FirstClaimantOrder(other, other, other);
      if k in before {
        FirstClaimantOrder(before[k], other, o);
        FirstClaimantOrder(other, before[k], o);
      }
    }
  }

  method FindHolders(rs: RSet, domain: string, claims: map<string, Claim>, listed: seq<RSet>) returns (holders: map<string, RSet>)
    ensures HoldersHold(rs, domain, claims, listed, holders)
  {
    holders := map[];
    for i := 0 to |listed|
      invariant HoldersHold(rs, domain, claims, listed[..i], holders)
    {
      var other := listed[i];
      assert listed[..i + 1] == listed[..i] + [other];
      if Contends(other, rs) {
        var before := holders;
        holders := EnterHolder(other, domain, claims, before);
        EnteredHolds(rs, domain, claims, listed[..i], before, other, holders);
      }
    }
    assert listed[..|listed|] == listed;
  }

  predicate RefusalLeq(a: Refusal, b: Refusal) {
    a.claim.index <= b.claim.index
  }

  /** The refusal points at a record and names its earliest holder. */
  ghost predicate RightlyRefused(listed: seq<RSet>, rs: RSet, domain: string, r: Refusal) {
    && r.holder in listed && Contends(r.holder, rs) && Holds(r.holder, domain, r.key)
    && (forall other :: other in listed && Contends(other, rs) && Holds(other, domain, r.key) ==> FirstClaimant(r.holder, other))
    && r.claim.index < |rs.records| && Qualify(rs.records[r.claim.index], domain) == r.key
  }

  /** Every contested name is refused once, in record order, naming its earliest holder. */
  ghost predicate RefusesExactly(listed: seq<RSet>, prior: Option<RSet>, rs: RSet, domain: string, refusals: seq<Refusal>) {
    && Sorted(RefusalLeq, refusals)
    && (forall k :: Contested(listed, prior, rs, domain, k) <==> exists r :: r in refusals && r.key == k)
    && (forall r :: r in refusals ==> RightlyRefused(listed, rs, domain, r))
  }

  lemma ClaimsAsk(prior: Option<RSet>, rs: RSet, domain: string, all: map<string, Claim>, claims: map<string, Claim>)
    requires ClaimsHold(rs, domain, |rs.records|, all)
    requires forall k :: k in claims <==> k in all && !(SamePlace(prior, rs) && Holds(prior.value, domain, k))
    ensures forall k :: k in claims <==> Asks(prior, rs, domain, k)
  {
    forall k ensures k in all <==> exists owner :: owner in rs.records && owner != "" && Qualify(owner, domain) == k {
      ClaimedIff(rs, domain, all, k);
    }
  }

  lemma ClaimedIff(rs: RSet, domain: string, all: map<string, Claim>, k: string)
    requires ClaimsHold(rs, domain, |rs.records|, all)
    ensures k in all <==> exists owner :: owner in rs.records && owner != "" && Qualify(owner, domain) == k
  {
    if owner :| owner in rs.records && owner != "" && Qualify(owner, domain) == k {
      var i :| 0 <= i < |rs.records| && rs.records[i] == owner;
    }
    if k in all { assert all[k].owner in rs.records; }
  }

  /** The refusals made from the holders, in any order. */
  method ListRefusals(claims: map<string, Claim>, holders: map<string, RSet>) returns (refusals: seq<Refusal>)
    requires holders.Keys <= claims.Keys
    ensures forall r :: r in refusals <==> r.key in holders && r == Refusal(claims[r.key], r.key, holders[r.key])
  {
    refusals := [];
    var rest := holders.Keys;
    while rest != {}
      invariant rest <= holders.Keys
      invariant forall r :: r in refusals <==> r.key in holders && r.key !in rest && r == Refusal(claims[r.key], r.key, holders[r.key])
    {
      var k :| k in rest;
      rest := rest - {k};
      refusals := refusals + [Refusal(claims[k], k, holders[k])];
    }
  }

  lemma ContestedHeld(listed: seq<RSet>, prior: Option<RSet>, rs: RSet, domain: string,
                      claims: map<string, Claim>, holders: map<string, RSet>, k: string)
    requires (k in claims <==> Asks(prior, rs, domain, k)) && HoldersHold(rs, domain, claims, listed, holders)
    ensures Contested(listed, prior, rs, domain, k) <==> k in holders
  {
    if Contested(listed, prior, rs, domain, k) {
      var other :| other in listed && Contends(other, rs) && Holds(other, domain, k);
    }
  }

  lemma HolderRight(listed: seq<RSet>, rs: RSet, domain: string, all: map<string, Claim>,
                    claims: map<string, Claim>, holders: map<string, RSet>, k: string)
    requires ClaimsHold(rs, domain, |rs.records|, all) && HoldersHold(rs, domain, claims, listed, holders)
    requires k in holders && k in claims && k in all && claims[k] == all[k]
    ensures RightlyRefused(listed, rs, domain, Refusal(claims[k], k, holders[k]))
  {
  }

  lemma HoldersRefused(claims: map<string, Claim>, holders: map<string, RSet>, refusals: seq<Refusal>)
    requires holders.Keys <= claims.Keys
    requires forall r :: r in refusals <==> r.key in holders && r == Refusal(claims[r.key], r.key, holders[r.key])
    ensures forall k :: k in holders <==> exists r :: r in refusals && r.key == k
  {
    forall k ensures k in holders <==> exists r :: r in refusals && r.key == k {
      if k in holders { assert Refusal(claims[k], k, holders[k]) in refusals; }
    }
  }

  lemma RefusalsExact(listed: seq<RSet>, prior: Option<RSet>, rs: RSet, domain: string, all: map<string, Claim>,
                      claims: map<string, Claim>, holders: map<string, RSet>, refusals: seq<Refusal>)
    requires ClaimsHold(rs, domain, |rs.records|, all) && HoldersHold(rs, domain, claims, listed, holders)
    requires (forall k :: k in claims <==> Asks(prior, rs, domain, k)) && forall k :: k in claims ==> k in all && claims[k] == all[k]
    requires forall r :: r in refusals <==> r.key in holders && r == Refusal(claims[r.key], r.key, holders[r.key])
    requires Sorted(RefusalLeq, refusals)
    ensures RefusesExactly(listed, prior, rs, domain, refusals)
  {
    HoldersRefused(claims, holders, refusals);
    forall k ensures Contested(listed, prior, rs, domain, k) <==> k in holders {
      ContestedHeld(listed, prior, rs, domain, claims, holders, k);
    }
    RefusalsRight(listed, rs, domain, all, claims, holders, refusals);
  }

  lemma RefusalsRight(listed: seq<RSet>, rs: RSet, domain: string, all: map<string, Claim>,
                      claims: map<string, Claim>, holders: map<string, RSet>, refusals: seq<Refusal>)
    requires ClaimsHold(rs, domain, |rs.records|, all) && HoldersHold(rs, domain, claims, listed, holders)
    requires forall k :: k in claims ==> k in all && claims[k] == all[k]
    requires forall r :: r in refusals <==> r.key in holders && r == Refusal(claims[r.key], r.key, holders[r.key])
    ensures forall r :: r in refusals ==> RightlyRefused(listed, rs, domain, r)
  {
    forall r | r in refusals ensures RightlyRefused(listed, rs, domain, r) {
      HolderRight(listed, rs, domain, all, claims, holders, r.key);
    }
  }

  /** Admitted when nothing is refused. */
  method RefuseClaimedOwnerNames(listed: seq<RSet>, prior: Option<RSet>, rs: RSet, domain: string) returns (refusals: seq<Refusal>)
    ensures RefusesExactly(listed, prior, rs, domain, refusals)
  {
    var all := NewOwnerClaims(rs, domain);
    var claims := all;
    if SamePlace(prior, rs) {
      claims := DropHeld(prior.value, domain, all);
    }
    ClaimsAsk(prior, rs, domain, all, claims);
    var holders := FindHolders(rs, domain, claims, listed);
    var unsorted := ListRefusals(claims, holders);
    refusals := Sort(RefusalLeq, unsorted);
    SameMembers(refusals, unsorted);
    SortSorted(RefusalLeq, unsorted);
    RefusalsExact(listed, prior, rs, domain, all, claims, holders, refusals);
  }

  // ----- serial runs --------------------------------------------------------

  type Sets = map<string, RSet>

  datatype Step =
    | Create(rs: RSet)
    | Update(rs: RSet)
    | MarkDeleted(name: string)
    | Remove(name: string)

  /** The schema's own rules: a zone reference and no empty owner names. */
  predicate SchemaValid(rs: RSet) {
    rs.zone != "" && "" !in rs.records
  }

  /** What the webhook decides, stated over the stored sets. */
  ghost predicate Admitted(sets: Sets, domains: string -> string, prior: Option<RSet>, rs: RSet) {
    forall k, n :: n in sets && Asks(prior, rs, domains(rs.zone), k) && Contends(sets[n], rs) ==>
      !Holds(sets[n], domains(rs.zone), k)
  }

  /** An empty answer from the webhook is admission. */
  lemma EmptyAnswerAdmits(sets: Sets, listed: seq<RSet>, domains: string -> string, prior: Option<RSet>, rs: RSet, refusals: seq<Refusal>)
    requires forall o :: o in listed <==> exists n :: n in sets && sets[n] == o
    requires RefusesExactly(listed, prior, rs, domains(rs.zone), refusals)
    ensures refusals == [] <==> Admitted(sets, domains, prior, rs)
  {
    var d := domains(rs.zone);
    if refusals == [] {
      forall k, n | n in sets && Asks(prior, rs, d, k) && Contends(sets[n], rs) ensures !Holds(sets[n], d, k) {
        assert sets[n] in listed;
        assert !Contested(listed, prior, rs, d, k);
      }
    }
    if refusals != [] {
      var r := refusals[0];
      assert r in refusals && Contested(listed, prior, rs, d, r.key);
      var other :| other in listed && Contends(other, rs) && Holds(other, d, r.key);
      var n :| n in sets && sets[n] == other;
    }
  }

  /** One serial request; a refused one changes nothing, and an update cannot mark a set as deleting. */
  ghost function Next(sets: Sets, domains: string -> string, step: Step): Sets {
    match step
    case Create(rs) =>
      if rs.name !in sets && !rs.deleting && SchemaValid(rs) && Admitted(sets, domains, None, rs)
      then sets[rs.name := rs] else sets
    case Update(rs) =>
      if rs.name in sets && rs.deleting == sets[rs.name].deleting && SchemaValid(rs)
         && Admitted(sets, domains, Some(sets[rs.name]), rs)
      then sets[rs.name := rs] else sets
    case MarkDeleted(n) => if n in sets then sets[n := sets[n].(deleting := true)] else sets
    case Remove(n) => sets - {n}
  }

  ghost function After(domains: string -> string, steps: seq<Step>): Sets {
    if steps == [] then map[] else Next(After(domains, steps[..|steps| - 1]), domains, steps[|steps| - 1])
  }

  /** Live record sets of contending types in one zone share no name. */
  ghost predicate Disjoint(sets: Sets, domains: string -> string) {
    forall a, b :: a in sets && b in sets && !sets[a].deleting && Contends(sets[b], sets[a]) ==>
      Held(sets[a].records, domains(sets[a].zone)) !! Held(sets[b].records, domains(sets[a].zone))
  }

  ghost predicate Keyed(sets: Sets) {
    forall n :: n in sets ==> sets[n].name == n && SchemaValid(sets[n])
  }

  lemma AdmittedDisjoint(sets: Sets, domains: string -> string, prior: Option<RSet>, rs: RSet, n: string)
    requires Keyed(sets) && Disjoint(sets, domains) && SchemaValid(rs) && Admitted(sets, domains, prior, rs)
    requires prior.Some? ==> rs.name in sets && sets[rs.name] == prior.value && !prior.value.deleting
    requires n in sets && Contends(sets[n], rs)
    ensures Held(rs.records, domains(rs.zone)) !! Held(sets[n].records, domains(rs.zone))
  {
    var d := domains(rs.zone);
    forall k | k in Held(rs.records, d) ensures k !in Held(sets[n].records, d) {
      if !Asks(prior, rs, d, k) {
        assert Contends(sets[n], prior.value);
      }
    }
  }

  lemma WriteKeeps(sets: Sets, domains: string -> string, prior: Option<RSet>, rs: RSet)
    requires Keyed(sets) && Disjoint(sets, domains) && SchemaValid(rs) && Admitted(sets, domains, prior, rs)
    requires prior.Some? ==> rs.name in sets && sets[rs.name] == prior.value && rs.deleting == prior.value.deleting
    ensures Disjoint(sets[rs.name := rs], domains)
  {
    var after := sets[rs.name := rs];
    forall a, b | a in after && b in after && !after[a].deleting && Contends(after[b], after[a])
      ensures Held(after[a].records, domains(after[a].zone)) !! Held(after[b].records, domains(after[a].zone))
    {
      if a == rs.name && b != rs.name {
        AdmittedDisjoint(sets, domains, prior, rs, b);
      } else if b == rs.name && a != rs.name {
        AdmittedDisjoint(sets, domains, prior, rs, a);
      }
    }
  }

  lemma StepKeeps(sets: Sets, domains: string -> string, step: Step)
    requires Keyed(sets) && Disjoint(sets, domains)
    ensures Keyed(Next(sets, domains, step)) && Disjoint(Next(sets, domains, step), domains)
  {
    var after := Next(sets, domains, step);
    if after != sets {
      match step
      case Create(rs) => WriteKeeps(sets, domains, None, rs);
      case Update(rs) => WriteKeeps(sets, domains, Some(sets[rs.name]), rs);
      case MarkDeleted(_) =>
      case Remove(_) =>
    }
  }

  /** The invariant of admission over every serial run. */
  lemma {:induction false} NamesStayDisjoint(domains: string -> string, steps: seq<Step>)
    ensures Keyed(After(domains, steps)) && Disjoint(After(domains, steps), domains)
  {
    if steps != [] {
      NamesStayDisjoint(domains, steps[..|steps| - 1]);
      StepKeeps(After(domains, steps[..|steps| - 1]), domains, steps[|steps| - 1]);
    }
  }

  /**
   * What admission keeps apart is what PowerDNS would refuse: two live record
   * sets of a zone that hold one name have different types, neither of which
   * excludes the other.
   */
  lemma LiveSetsNeverConflict(domains: string -> string, steps: seq<Step>, a: string, b: string, key: string)
    requires var sets := After(domains, steps);
             && a in sets && b in sets && a != b && !sets[a].deleting && !sets[b].deleting && sets[a].zone == sets[b].zone
             && Holds(sets[a], domains(sets[a].zone), key) && Holds(sets[b], domains(sets[a].zone), key)
    ensures var sets := After(domains, steps);
            sets[a].rtype != sets[b].rtype && !PowerDns.Excludes(sets[a].rtype, sets[b].rtype)
  {
    var sets := After(domains, steps);
    NamesStayDisjoint(domains, steps);
    assert sets[b].name == b && sets[a].name == a;
    assert key in Held(sets[a].records, domains(sets[a].zone)) && key in Held(sets[b].records, domains(sets[a].zone));
  }

  /**
   * The webhook itself passes over empty owner names although they qualify to
   * the apex, so disjointness rests on the schema refusing them.
   */
  lemma EmptyNameSlips(sets: Sets, domains: string -> string, rs: RSet)
    requires rs.records == [""]
    ensures Admitted(sets, domains, None, rs) && Holds(rs, domains(rs.zone), Qualify("@", domains(rs.zone)))
  {
    assert rs.records[0] in rs.records;
  }
}
