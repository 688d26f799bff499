/** Exactly when the order of the sources shows in the plan: two TTLs meeting at one key. */
module TtlOrder {
  import opened Text
  import opened Sorting
  import opened Sources
  import opened ClaimTable
  import opened Aggregation
  import opened Compiler
  import opened CompilerProofs
  import opened SrvProofs
  import opened Canonical

  ghost predicate Publishes(inp: Input, st: Claims, rejected: map<UID, string>, c: Contribution, key: Key) {
    exists e :: e in EntriesOf(inp, st, rejected)(c) && e.key == key
  }

  lemma PublishedTtl(inp: Input, st: Claims, rejected: map<UID, string>, c: Contribution, e: Entry)
    requires e in EntriesOf(inp, st, rejected)(c)
    ensures RegistrationOf(inp, st, c).Some? && e.ttl == RegistrationOf(inp, st, c).value.ttl
  {
    var reg := RegistrationOf(inp, st, c).value;
    var part, record := EntryPlace(reg, c, Apex(inp), e);
  }

  function TtlOf(inp: Input, st: Claims, c: Contribution): int {
    var reg := RegistrationOf(inp, st, c);
    if reg.Some? then reg.value.ttl else 0
  }

  /** Contributions that publish at the same key belong to registrations with the same TTL. */
  ghost predicate OneTtlPerKey(inp: Input, st: Claims, rejected: map<UID, string>) {
    forall c, d, key | c in inp.contributions && d in inp.contributions ::
      Publishes(inp, st, rejected, c, key) && Publishes(inp, st, rejected, d, key) ==> TtlOf(inp, st, c) == TtlOf(inp, st, d)
  }

  lemma ContributedTtlOf(inp: Input, st: Claims, rejected: map<UID, string>, e: Entry) returns (c: Contribution)
    requires e in FlatMap(EntriesOf(inp, st, rejected), inp.contributions)
    ensures c in inp.contributions && Publishes(inp, st, rejected, c, e.key) && e.ttl == TtlOf(inp, st, c)
  {
    FlatMapMembers(EntriesOf(inp, st, rejected), inp.contributions, e);
    c :| c in inp.contributions && e in EntriesOf(inp, st, rejected)(c);
    PublishedTtl(inp, st, rejected, c, e);
  }

  lemma OneTtlAgrees(inp: Input, rejected: map<UID, string>)
    requires WellFormed(inp) && OneTtlPerKey(inp, AllClaims(inp, rejected), rejected)
    ensures AgreedTtls(Entries(inp, AllClaims(inp, rejected), rejected))
  {
    var st := AllClaims(inp, rejected);
    var entries := Entries(inp, st, rejected);
    EntriesUnmixed(inp, rejected);
    forall x, y | x in entries && y in entries && x.key == y.key ensures x.ttl == y.ttl {
      EntrySide(inp, st, rejected, x);
      EntrySide(inp, st, rejected, y);
      if x.uid.Some? {
        var c := ContributedTtlOf(inp, st, rejected, x);
        var d := ContributedTtlOf(inp, st, rejected, y);
      }
    }
  }

  // ----- whoever is listed first --------------------------------------------

  function ToFront<T>(s: seq<T>, i: nat): seq<T>
    requires i < |s|
  {
    [s[i]] + s[..i] + s[i + 1..]
  }

  lemma ToFrontPermutes<T>(s: seq<T>, i: nat)
    requires i < |s|
    ensures multiset(ToFront(s, i)) == multiset(s)
  {
    assert s == s[..i] + [s[i]] + s[i + 1..];
  }

  function Leading(inp: Input, i: nat): Input
    requires i < |inp.contributions|
  {
    inp.(contributions := ToFront(inp.contributions, i))
  }

  /** What the first contribution publishes decides the TTL of its keys. */
  lemma FirstDecides(inp: Input, st: Claims, rejected: map<UID, string>, key: Key)
    requires inp.contributions != [] && Publishes(inp, st, rejected, inp.contributions[0], key)
    ensures var at := Aggregation.At(Entries(inp, st, rejected), key); at != [] && at[0].ttl == TtlOf(inp, st, inp.contributions[0])
  {
    var c, g := inp.contributions[0], EntriesOf(inp, st, rejected);
    var rest := FlatMap(g, inp.contributions[1..]) + FlatMap(StaticEntriesOf(inp, st), inp.statics);
    SplitFirst(inp, st, rejected, rest);
    var p := (e: Entry) => e.key == key;
    FilterConcat(p, g(c), rest);
    var e :| e in g(c) && e.key == key;
    assert e in Filter(p, g(c));
    var first := Filter(p, g(c))[0];
    assert first in Filter(p, g(c)) && first in g(c);
    PublishedTtl(inp, st, rejected, c, first);
  }

  lemma SplitFirst(inp: Input, st: Claims, rejected: map<UID, string>, rest: seq<Entry>)
    requires inp.contributions != []
    requires rest == FlatMap(EntriesOf(inp, st, rejected), inp.contributions[1..]) + FlatMap(StaticEntriesOf(inp, st), inp.statics)
    ensures Entries(inp, st, rejected) == EntriesOf(inp, st, rejected)(inp.contributions[0]) + rest
  {
    FlatMapFirst(EntriesOf(inp, st, rejected), inp.contributions);
  }

  lemma FlatMapFirst<T, U>(g: T -> seq<U>, s: seq<T>)
    requires s != []
    ensures FlatMap(g, s) == g(s[0]) + FlatMap(g, s[1..])
  {
    assert s == [s[0]] + s[1..];
    FlatMapConcat(g, [s[0]], s[1..]);
    assert [s[0]][..0] == [];
    assert FlatMap(g, [s[0]]) == g(s[0]);
  }

  /** The round's plan shows the first contribution's TTL. */
  lemma FirstShows(inp: Input, rejected: map<UID, string>, key: Key, s: RRSet)
    requires inp.contributions != [] && Publishes(inp, AllClaims(inp, rejected), rejected, inp.contributions[0], key)
    requires s in CompileInputs(inp, rejected).plan.rrsets && Key(s.name, s.rtype) == key
    ensures s.ttl == TtlOf(inp, AllClaims(inp, rejected), inp.contributions[0])
  {
    var st := AllClaims(inp, rejected);
    FirstDecides(inp, st, rejected, key);
    var e := RRSetTtlIs(inp.marshal, Entries(inp, st, rejected), s);
  }

  lemma KeyShown(inp: Input, rejected: map<UID, string>, c: Contribution, key: Key) returns (s: RRSet)
    requires c in inp.contributions && Publishes(inp, AllClaims(inp, rejected), rejected, c, key)
    ensures s in CompileInputs(inp, rejected).plan.rrsets && Key(s.name, s.rtype) == key
  {
    var st := AllClaims(inp, rejected);
    var e :| e in EntriesOf(inp, st, rejected)(c) && e.key == key;
    FlatMapMembers(EntriesOf(inp, st, rejected), inp.contributions, e);
    EntryPublished(inp.marshal, Entries(inp, st, rejected), e);
    s :| s in RRSets(inp.marshal, Aggregates(Entries(inp, st, rejected))) && s.name == e.key.name && s.rtype == e.key.rtype;
  }

  /** Two inputs led by contributions with different TTLs at one key compile differently. */
  lemma LeadersShow(a: Input, b: Input, rejected: map<UID, string>, key: Key)
    requires a.contributions != [] && b.contributions != []
    requires Publishes(a, AllClaims(a, rejected), rejected, a.contributions[0], key)
    requires Publishes(b, AllClaims(b, rejected), rejected, b.contributions[0], key)
    requires TtlOf(a, AllClaims(a, rejected), a.contributions[0]) != TtlOf(b, AllClaims(b, rejected), b.contributions[0])
    ensures CompileInputs(a, rejected).plan.rrsets != CompileInputs(b, rejected).plan.rrsets
  {
    var s := KeyShown(a, rejected, a.contributions[0], key);
    FirstShows(a, rejected, key, s);
    if s in CompileInputs(b, rejected).plan.rrsets { FirstShows(b, rejected, key, s); }
  }

  /** Moving contribution `i` to the front changes what it publishes nowhere. */
  lemma LeadingSame(a: Input, i: nat, rejected: map<UID, string>, key: Key)
    requires WellFormed(a) && i < |a.contributions| && Publishes(a, AllClaims(a, rejected), rejected, a.contributions[i], key)
    ensures var b := Leading(a, i);
            && Reordered(a, b) && WellFormed(b) && FinalRejected(b) == FinalRejected(a)
            && AllClaims(b, rejected) == AllClaims(a, rejected) && b.contributions[0] == a.contributions[i]
            && Publishes(b, AllClaims(b, rejected), rejected, b.contributions[0], key)
            && TtlOf(b, AllClaims(b, rejected), b.contributions[0]) == TtlOf(a, AllClaims(a, rejected), a.contributions[i])
  {
    var b, c := Leading(a, i), a.contributions[i];
    ToFrontPermutes(a.contributions, i);
    ReorderedWellFormed(a, b);
    SameFinalRejected(a, b);
    SameClaims(a, b, rejected);
    SameContribution(a, b, AllClaims(a, rejected), rejected, c);
    SameEntriesOf(a, b, AllClaims(a, rejected), rejected, c);
  }

  lemma TwoTtlsShow(a: Input, i: nat, j: nat, key: Key)
    requires WellFormed(a) && Compile(a).Some? && i < |a.contributions| && j < |a.contributions|
    requires var rejected := Rejecting(FinalRejected(a));
             var st := AllClaims(a, rejected);
             && Publishes(a, st, rejected, a.contributions[i], key) && Publishes(a, st, rejected, a.contributions[j], key)
             && TtlOf(a, st, a.contributions[i]) != TtlOf(a, st, a.contributions[j])
    ensures Reordered(a, Leading(a, i)) && WellFormed(Leading(a, i)) && Reordered(a, Leading(a, j)) && WellFormed(Leading(a, j))
    ensures Compile(Leading(a, i)) != Compile(Leading(a, j))
  {
    var rejected := Rejecting(FinalRejected(a));
    LeadingSame(a, i, rejected, key);
    LeadingSame(a, j, rejected, key);
    LeadersShow(Leading(a, i), Leading(a, j), rejected, key);
  }

  ghost predicate CompilesAs(b: Input, a: Input) {
    WellFormed(b) && Compile(b) == Compile(a)
  }

  /** Every listing order of the same sources compiles alike. */
  ghost predicate OrderIndependent(a: Input) {
    forall b :: Reordered(a, b) ==> CompilesAs(b, a)
  }

  /**
   * The order the sources are listed in never shows, if and only if no two
   * published contributions of registrations with different TTLs share a key.
   */
  lemma OrderShowsIff(a: Input)
    requires WellFormed(a) && Lawful(a.marshal) && Compile(a).Some?
    ensures var rejected := Rejecting(FinalRejected(a));
            OrderIndependent(a) <==> OneTtlPerKey(a, AllClaims(a, rejected), rejected)
  {
    var rejected := Rejecting(FinalRejected(a));
    if OneTtlPerKey(a, AllClaims(a, rejected), rejected) {
      AgreedIndependent(a);
    } else {
      DisagreedOrder(a);
    }
  }

  lemma AgreedIndependent(a: Input)
    requires WellFormed(a) && Lawful(a.marshal)
    requires OneTtlPerKey(a, AllClaims(a, Rejecting(FinalRejected(a))), Rejecting(FinalRejected(a)))
    ensures OrderIndependent(a)
  {
    forall b | Reordered(a, b) ensures CompilesAs(b, a) { AgreedOrder(a, b); }
  }

  lemma DisagreedOrder(a: Input)
    requires WellFormed(a) && Compile(a).Some?
    requires !OneTtlPerKey(a, AllClaims(a, Rejecting(FinalRejected(a))), Rejecting(FinalRejected(a)))
    ensures !OrderIndependent(a)
  {
    var i, j, key := Clash(a, AllClaims(a, Rejecting(FinalRejected(a))), Rejecting(FinalRejected(a)));
    TwoTtlsShow(a, i, j, key);
  }

  lemma Clash(a: Input, st: Claims, rejected: map<UID, string>) returns (i: nat, j: nat, key: Key)
    requires !OneTtlPerKey(a, st, rejected)
    ensures i < |a.contributions| && j < |a.contributions|
    ensures Publishes(a, st, rejected, a.contributions[i], key) && Publishes(a, st, rejected, a.contributions[j], key)
    ensures TtlOf(a, st, a.contributions[i]) != TtlOf(a, st, a.contributions[j])
  {
    var c, d, k :| c in a.contributions && d in a.contributions && Publishes(a, st, rejected, c, k)
                   && Publishes(a, st, rejected, d, k) && TtlOf(a, st, c) != TtlOf(a, st, d);
    key := k;
    i :| 0 <= i < |a.contributions| && a.contributions[i] == c;
    j :| 0 <= j < |a.contributions| && a.contributions[j] == d;
  }

  lemma AgreedOrder(a: Input, b: Input)
    requires WellFormed(a) && Lawful(a.marshal) && Reordered(a, b)
    requires OneTtlPerKey(a, AllClaims(a, Rejecting(FinalRejected(a))), Rejecting(FinalRejected(a)))
    ensures WellFormed(b) && Compile(b) == Compile(a)
  {
    ReorderedWellFormed(a, b);
    SameFinalRejected(a, b);
    OneTtlAgrees(a, Rejecting(FinalRejected(a)));
    SameCompilation(a, b, Rejecting(FinalRejected(a)));
  }
}
