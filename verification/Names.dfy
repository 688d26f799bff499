/**
 * Owner names. Two rules coexist: the private compiler keeps names relative to
 * the zone apex and makes them absolute again on the wire; PowerDNS and the
 * admission webhook qualify every spelling to one absolute name.
 */
module Names {
  import opened Text

  const DOT := "."
  const APEX := "@"

  function CanonicalName(s: string): string {
    ToLower(TrimSuffix(TrimSpace(s), DOT))
  }

  /** A name that canonicalisation leaves alone. */
  predicate Settled(n: string) {
    CanonicalName(n) == n
  }

  /** The name relative to the apex, or "@" at the apex. */
  function ZoneOwner(s: string, apex: string): string {
    var n, a := CanonicalName(s), CanonicalName(apex);
    if n == a then APEX
    else if HasSuffix(n, DOT + a) then TrimSuffix(n, DOT + a)
    else n
  }

  function AbsoluteOwner(s: string, apex: string): string {
    var n, a := CanonicalName(s), CanonicalName(apex);
    if n == APEX then a
    else if n == a || HasSuffix(n, DOT + a) then n
    else n + DOT + a
  }

  function SrvTargetOwner(s: string, apex: string): string {
    if HasSuffix(TrimSpace(s), DOT) then CanonicalName(s) else AbsoluteOwner(s, apex)
  }

  /** The relative part of a name: what is left of it below the apex. */
  function RelativePart(s: string, apex: string): string {
    TrimSuffix(CanonicalName(s), DOT + CanonicalName(apex))
  }

  /**
   * The relative part of the name would be read back as the apex, as a name
   * below the apex, or as a different spelling.
   */
  predicate Ambiguous(s: string, apex: string) {
    var n, a := CanonicalName(s), CanonicalName(apex);
    && n != APEX && n != a
    && var rel := RelativePart(s, apex);
       rel == APEX || rel == a || HasSuffix(rel, DOT + a) || !Settled(rel)
  }

  /** The absolute form of a canonical name. */
  function Absolute(c: string, a: string): string {
    if c == APEX then a else if c == a || HasSuffix(c, DOT + a) then c else c + DOT + a
  }

  lemma RelativeReadBack(rel: string, c: string, a: string)
    requires |c| <= |rel|
    ensures Absolute(c, a) == rel + DOT + a <==> c == rel && rel != APEX && rel != a && !HasSuffix(rel, DOT + a)
  {
    var n := rel + DOT + a;
    assert |n| == |rel| + 1 + |a|;
    if c != APEX && c != a && !HasSuffix(c, DOT + a) {
      assert |c + DOT + a| == |c| + 1 + |a|;
      assert (c + DOT + a)[..|c|] == c && n[..|rel|] == rel;
    }
  }

  /**
   * Going through the relative form and back keeps the absolute name, exactly
   * when the name is not ambiguous.
   */
  lemma OwnerRoundTrip(s: string, apex: string)
    ensures AbsoluteOwner(ZoneOwner(s, apex), apex) == AbsoluteOwner(s, apex) <==> !Ambiguous(s, apex)
  {
    var n, a := CanonicalName(s), CanonicalName(apex);
    if n == APEX || n == a {
      ApexCanonical();
    } else {
      var rel := RelativePart(s, apex);
      CanonicalNameShrinks(rel);
      ReadBack(n, a, rel, CanonicalName(rel));
      AbsoluteIs(s, apex);
      AbsoluteIs(rel, apex);
    }
  }

  lemma AbsoluteIs(s: string, apex: string)
    ensures AbsoluteOwner(s, apex) == Absolute(CanonicalName(s), CanonicalName(apex))
  {
  }

  lemma ReadBack(n: string, a: string, rel: string, c: string)
    requires n != APEX && n != a && rel == TrimSuffix(n, DOT + a) && |c| <= |rel|
    ensures Absolute(c, a) == Absolute(n, a) <==> c == rel && rel != APEX && rel != a && !HasSuffix(rel, DOT + a)
  {
    RelativeSplits(n, a);
    RelativeReadBack(rel, c, a);
  }

  lemma RelativeSplits(n: string, a: string)
    ensures var rel := TrimSuffix(n, DOT + a);
            if HasSuffix(n, DOT + a) then n == rel + DOT + a else rel == n
  {
  }

  lemma ApexCanonical()
    ensures CanonicalName(APEX) == APEX
  {
    assert TrimLeft(APEX) == APEX && TrimRight(APEX) == APEX;
  }

  lemma CanonicalNameShrinks(s: string)
    ensures |CanonicalName(s)| <= |s|
  {
    TrimLeftShrinks(s);
    TrimRightShrinks(TrimLeft(s));
  }

  lemma TrimLeftShrinks(s: string)
    ensures |TrimLeft(s)| <= |s|
  {
  }

  lemma TrimRightShrinks(s: string)
    ensures |TrimRight(s)| <= |s|
  {
  }

  /** The collapse is real: two different absolute names share a relative form. */
  lemma OwnerRoundTripFails()
    ensures ZoneOwner("x.a.a", "a") == "x.a" && AbsoluteOwner("x.a", "a") == "x.a" != AbsoluteOwner("x.a.a", "a")
    ensures Ambiguous("x.a.a", "a")
  {
    var s := "x.a.a";
    assert TrimLeft(s) == s && TrimRight(s) == s;
    var t := "x.a";
    assert TrimLeft(t) == t && TrimRight(t) == t;
    var a := "a";
    assert TrimLeft(a) == a && TrimRight(a) == a;
    assert CanonicalName(s) == s && CanonicalName(t) == t && CanonicalName(a) == a;
    assert DOT + a == ".a";
    assert s[3..] == ".a" && s[..3] == t;
    assert t[1..] == ".a";
  }

  /** The absolute, lower-case name an owner denotes within a zone. */
  function Qualify(owner: string, zone: string): (r: string)
    ensures r != [] && r[|r| - 1] == '.'
    ensures ToLower(r) == r
  {
    var o, z := ToLower(owner), ToLower(zone);
    ToLowerIdempotent(owner);
    ToLowerIdempotent(zone);
    if o == APEX || o == "" then
      ToLowerConcat(z, DOT);
      z + DOT
    else if o[|o| - 1] == '.' then o
    else
      ToLowerConcat(o, DOT);
      ToLowerConcat(o + DOT, z);
      ToLowerConcat(o + DOT + z, DOT);
      o + DOT + z + DOT
  }

  /** Every spelling of one name has the same qualified form, which is a fixed point. */
  lemma QualifyIdempotent(owner: string, zone: string)
    ensures Qualify(Qualify(owner, zone), zone) == Qualify(owner, zone)
  {
    var q := Qualify(owner, zone);
    assert q != APEX;
  }
}
