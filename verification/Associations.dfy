/** Which zone associations of a project are accepted. */
module Associations {
  import opened Text
  import opened Sorting
  import opened Rounds
  import opened ZoneLimit

  /**
   * `current` when zone and context match their pinned lifetimes and the
   * association is not being deleted, `shadows` when the zone lies over a
   * reserved subtree of the context.
   */
  datatype Association = Association(
    name: string, current: bool, shadows: bool, context: UID, zone: UID, apex: string,
    managed: bool, since: Option<int>, created: int)

  datatype ApexKey = ApexKey(context: UID, apex: string)

  datatype Verdict = Undecided | Accepted | Rejected(reason: string)

  function CandidateOf(a: Association, i: nat): Candidate {
    Candidate(i, a.zone, a.apex, a.managed, a.since, a.created, a.name)
  }

  function ListOf(candidates: map<UID, seq<Candidate>>, context: UID): seq<Candidate> {
    if context in candidates then candidates[context] else []
  }

  /** The candidates of every context come from the associations still undecided, one zone per apex. */
  ghost predicate Sifted(items: seq<Association>, owners: map<ApexKey, UID>, candidates: map<UID, seq<Candidate>>, verdicts: seq<Verdict>) {
    && |verdicts| <= |items|
    && (forall u, c :: c in ListOf(candidates, u) ==>
          && c.index < |verdicts| && verdicts[c.index].Undecided?
          && items[c.index].context == u && c == CandidateOf(items[c.index], c.index)
          && ApexKey(u, c.apex) in owners && owners[ApexKey(u, c.apex)] == c.zone)
    && (forall i :: 0 <= i < |verdicts| ==>
          if verdicts[i].Undecided?
          then items[i].current && !items[i].shadows && CandidateOf(items[i], i) in ListOf(candidates, items[i].context)
          else verdicts[i].Rejected?)
  }

  lemma SiftedNext(items: seq<Association>, owners: map<ApexKey, UID>, candidates: map<UID, seq<Candidate>>, verdicts: seq<Verdict>)
    requires Sifted(items, owners, candidates, verdicts) && |verdicts| < |items|
    requires var a := items[|verdicts|];
             var k := ApexKey(a.context, a.apex);
             a.current && !a.shadows && (k in owners ==> owners[k] == a.zone)
    ensures var n := |verdicts|;
            var a := items[n];
            Sifted(items, owners[ApexKey(a.context, a.apex) := a.zone],
                   candidates[a.context := ListOf(candidates, a.context) + [CandidateOf(a, n)]], verdicts + [Undecided])
  {
    var n := |verdicts|;
    var a := items[n];
    var more := candidates[a.context := ListOf(candidates, a.context) + [CandidateOf(a, n)]];
    var held := owners[ApexKey(a.context, a.apex) := a.zone];
    forall u, c | c in ListOf(more, u)
      ensures c.index < n + 1 && (verdicts + [Undecided])[c.index].Undecided? && items[c.index].context == u
      ensures c == CandidateOf(items[c.index], c.index) && ApexKey(u, c.apex) in held && held[ApexKey(u, c.apex)] == c.zone
    {
      assert c in ListOf(candidates, u) || (u == a.context && c == CandidateOf(a, n));
    }
    forall i | 0 <= i < n && verdicts[i].Undecided? ensures CandidateOf(items[i], i) in ListOf(more, items[i].context) {
      assert CandidateOf(items[i], i) in ListOf(candidates, items[i].context);
    }
    assert CandidateOf(a, n) in ListOf(more, a.context);
  }

  /** Associations in name order; everything but the zone limit is decided here. */
  method Sift(items: seq<Association>) returns (ghost owners: map<ApexKey, UID>, candidates: map<UID, seq<Candidate>>, verdicts: seq<Verdict>)
    ensures |verdicts| == |items| && Sifted(items, owners, candidates, verdicts)
  {
    var held: map<ApexKey, UID> := map[];
    candidates, verdicts := map[], [];
    for i := 0 to |items|
      invariant |verdicts| == i && Sifted(items, held, candidates, verdicts)
    {
      var a := items[i];
      var k := ApexKey(a.context, a.apex);
      if !a.current {
        verdicts := verdicts + [Rejected("InvalidReference")];
      } else if a.shadows {
        verdicts := verdicts + [Rejected("ReservedScope")];
      } else if k in held && held[k] != a.zone {
        verdicts := verdicts + [Rejected("ApexConflict")];
      } else {
        SiftedNext(items, held, candidates, verdicts);
        held := held[k := a.zone];
        candidates := candidates[a.context := ListOf(candidates, a.context) + [CandidateOf(a, i)]];
        verdicts := verdicts + [Undecided];
      }
    }
    owners := held;
  }

  /** What the zone limit makes of one undecided association. */
  ghost function Limited(items: seq<Association>, candidates: map<UID, seq<Candidate>>, i: nat): Verdict
    requires i < |items|
  {
    if items[i].zone in KeptZones(ListOf(candidates, items[i].context)) then Accepted else Rejected("ZoneLimitExceeded")
  }

  lemma FitsIffKept(items: seq<Association>, owners: map<ApexKey, UID>, candidates: map<UID, seq<Candidate>>, verdicts: seq<Verdict>, c: Candidate, u: UID)
    requires Sifted(items, owners, candidates, verdicts) && c in ListOf(candidates, u)
    ensures DoesNotFit(ListOf(candidates, u), c.index) <==> Limited(items, candidates, c.index) != Accepted
  {
    if DoesNotFit(ListOf(candidates, u), c.index) {
      var d :| d in ListOf(candidates, u) && d.index == c.index && d.zone !in KeptZones(ListOf(candidates, u));
    }
  }

  /** Writes the verdicts of one context. */
  method Decide(items: seq<Association>, ghost owners: map<ApexKey, UID>, candidates: map<UID, seq<Candidate>>,
                ghost sifted: seq<Verdict>, u: UID, before: seq<Verdict>) returns (verdicts: seq<Verdict>)
    requires Sifted(items, owners, candidates, sifted) && |before| == |sifted| == |items| && u in candidates
    ensures |verdicts| == |before|
    ensures forall i :: 0 <= i < |items| ==>
              verdicts[i] == if sifted[i].Undecided? && items[i].context == u then Limited(items, candidates, i) else before[i]
  {
    var list := candidates[u];
    assert list == ListOf(candidates, u);
    var refused := OverZoneLimit(list);
    verdicts := before;
    for n := 0 to |list|
      invariant |verdicts| == |before|
      invariant forall i :: 0 <= i < |items| ==>
                  verdicts[i] == if Listed(list[..n], i) then Limited(items, candidates, i) else before[i]
    {
      var c := list[n];
      assert c in ListOf(candidates, u);
      FitsIffKept(items, owners, candidates, sifted, c, u);
      ListedNext(list, n);
      verdicts := verdicts[c.index := if c.index in refused then Rejected("ZoneLimitExceeded") else Accepted];
    }
    assert list[..|list|] == list;
    AllListed(items, owners, candidates, sifted, u);
  }

  ghost predicate Listed(list: seq<Candidate>, i: nat) {
    exists c :: c in list && c.index == i
  }

  lemma ListedNext(list: seq<Candidate>, n: nat)
    requires n < |list|
    ensures forall i :: Listed(list[..n + 1], i) <==> Listed(list[..n], i) || i == list[n].index
  {
    assert list[..n + 1] == list[..n] + [list[n]];
    forall i ensures Listed(list[..n + 1], i) <==> Listed(list[..n], i) || i == list[n].index {
      if Listed(list[..n], i) {
        var c :| c in list[..n] && c.index == i;
        assert c in list[..n + 1];
      }
      assert list[n] in list[..n + 1];
    }
  }

  lemma AllListed(items: seq<Association>, owners: map<ApexKey, UID>, candidates: map<UID, seq<Candidate>>, sifted: seq<Verdict>, u: UID)
    requires Sifted(items, owners, candidates, sifted)
    ensures forall i :: 0 <= i < |sifted| ==> (Listed(ListOf(candidates, u), i) <==> sifted[i].Undecided? && items[i].context == u)
  {
    forall i | 0 <= i < |sifted| ensures Listed(ListOf(candidates, u), i) <==> sifted[i].Undecided? && items[i].context == u {
      ListedIffUndecided(items, owners, candidates, sifted, u, i);
    }
  }

  lemma ListedIffUndecided(items: seq<Association>, owners: map<ApexKey, UID>, candidates: map<UID, seq<Candidate>>, verdicts: seq<Verdict>, u: UID, i: nat)
    requires Sifted(items, owners, candidates, verdicts) && i < |verdicts|
    ensures Listed(ListOf(candidates, u), i) <==> verdicts[i].Undecided? && items[i].context == u
  {
    if verdicts[i].Undecided? && items[i].context == u {
      assert CandidateOf(items[i], i) in ListOf(candidates, u);
    }
  }

  predicate NameLeq(a: Association, b: Association) {
    Leq(a.name, b.name)
  }

  /** The verdict on every association, in name order. */
  method ReconcileAssociations(listed: seq<Association>) returns (items: seq<Association>, verdicts: seq<Verdict>,
                                                                 ghost owners: map<ApexKey, UID>, ghost candidates: map<UID, seq<Candidate>>, ghost sifted: seq<Verdict>)
    ensures items == Sort(NameLeq, listed) && |verdicts| == |sifted| == |items|
    ensures Sifted(items, owners, candidates, sifted)
    ensures forall i :: 0 <= i < |items| ==> verdicts[i] == if sifted[i].Undecided? then Limited(items, candidates, i) else sifted[i]
  {
    items := Sort(NameLeq, listed);
    var byContext;
    owners, byContext, verdicts := Sift(items);
    candidates, sifted := byContext, verdicts;
    var rest := byContext.Keys;
    while rest != {}
      invariant rest <= byContext.Keys && |verdicts| == |items|
      invariant forall i :: 0 <= i < |items| ==>
                  verdicts[i] == if sifted[i].Undecided? && items[i].context !in rest then Limited(items, candidates, i) else sifted[i]
    {
      var u :| u in rest;
      rest := rest - {u};
      verdicts := Decide(items, owners, byContext, sifted, u, verdicts);
    }
  }

  // ----- what an outcome guarantees -----------------------------------------

  ghost predicate Decided(items: seq<Association>, owners: map<ApexKey, UID>, candidates: map<UID, seq<Candidate>>, sifted: seq<Verdict>, verdicts: seq<Verdict>) {
    && |verdicts| == |sifted| == |items| && Sifted(items, owners, candidates, sifted)
    && forall i :: 0 <= i < |items| ==> verdicts[i] == if sifted[i].Undecided? then Limited(items, candidates, i) else sifted[i]
  }

  /** The zones a context's bindings list. */
  function AcceptedZones(items: seq<Association>, verdicts: seq<Verdict>, context: UID): set<UID>
    requires |verdicts| == |items|
  {
    set i | 0 <= i < |items| && verdicts[i].Accepted? && items[i].context == context :: items[i].zone
  }

  /** Accepted associations of a context name at most 256 zones. */
  lemma AtMostLimit(items: seq<Association>, owners: map<ApexKey, UID>, candidates: map<UID, seq<Candidate>>, sifted: seq<Verdict>, verdicts: seq<Verdict>, context: UID)
    requires Decided(items, owners, candidates, sifted, verdicts)
    ensures |AcceptedZones(items, verdicts, context)| <= MAX_ZONES
  {
    var kept := KeptZones(ListOf(candidates, context));
    WithinLimit(ListOf(candidates, context));
    forall z | z in AcceptedZones(items, verdicts, context) ensures z in kept {
      var i :| 0 <= i < |items| && verdicts[i].Accepted? && items[i].context == context && items[i].zone == z;
    }
    SubsetSize(AcceptedZones(items, verdicts, context), kept);
  }

  /** In one context an apex belongs to one accepted zone. */
  lemma OneZonePerApex(items: seq<Association>, owners: map<ApexKey, UID>, candidates: map<UID, seq<Candidate>>, sifted: seq<Verdict>, verdicts: seq<Verdict>, i: nat, j: nat)
    requires Decided(items, owners, candidates, sifted, verdicts) && i < |items| && j < |items|
    requires verdicts[i].Accepted? && verdicts[j].Accepted?
    requires items[i].context == items[j].context && items[i].apex == items[j].apex
    ensures items[i].zone == items[j].zone
  {
    var u := items[i].context;
    assert CandidateOf(items[i], i) in ListOf(candidates, u) && CandidateOf(items[j], j) in ListOf(candidates, u);
  }
}
