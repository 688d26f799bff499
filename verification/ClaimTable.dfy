/**
 * Who may publish which (name, type). Sources ask in a fixed order; a source
 * that meets a claim of another one is refused whole.
 */
module ClaimTable {
  import opened Sources

  /** One record of a static set: the key it needs and what refuses it anyway. */
  datatype Item = Item(key: Key, ttl: int, refusal: string)

  /** A static set asks for the keys of its records, unless it is set aside. */
  datatype StaticAsk = StaticAsk(uid: UID, aside: bool, items: seq<Item>)

  datatype Verdict = Ignore | Refuse(reason: string) | Accept

  /** A registration asks for one key per type, with the verdict of its own checks. */
  datatype RegistrationAsk = RegistrationAsk(uid: UID, verdict: Verdict, keys: set<Key>)

  datatype Claims = Claims(
    held: map<Key, UID>, statics: map<Key, UID>, ttls: map<Key, int>,
    staticSets: set<UID>, registrations: set<UID>, reasons: map<UID, string>)

  /** Go's m[uid]: the empty string when there is none. */
  function Reason(m: map<UID, string>, uid: UID): string {
    if uid in m then m[uid] else ""
  }

  /** `uid` is a holder the conflict search can report for `key`. */
  predicate Reports(held: map<Key, UID>, key: Key, uid: UID) {
    if key in held then held[key] == uid
    else if key.rtype == CNAME then exists k | k in held :: k.name == key.name && held[k] == uid
    else Key(key.name, CNAME) in held && held[Key(key.name, CNAME)] == uid
  }

  /** Some source other than `self` stands in the way of `key`. */
  predicate Contested(held: map<Key, UID>, key: Key, self: UID) {
    if key in held then held[key] != self
    else if key.rtype == CNAME then exists k | k in held :: k.name == key.name && held[k] != self
    else Key(key.name, CNAME) in held && held[Key(key.name, CNAME)] != self
  }

  /** The holders after `uid` is given `keys`. */
  function Granted(held: map<Key, UID>, keys: set<Key>, uid: UID): map<Key, UID> {
    held + map k | k in keys :: uid
  }

  datatype Scan = Refused(reason: string) | Pending(ttls: map<Key, int>)

  function ScanItem(held: map<Key, UID>, uid: UID, item: Item, pending: map<Key, int>): Scan {
    if item.refusal != "" then Refused(item.refusal)
    else if item.key in pending && pending[item.key] != item.ttl then Refused("ConflictingTTL")
    else if Contested(held, item.key, uid) then Refused("NameConflict")
    else Pending(pending[item.key := item.ttl])
  }

  /** The records of a static set in turn, up to the first one refused. */
  function ScanItems(held: map<Key, UID>, uid: UID, items: seq<Item>): Scan {
    if items == [] then Pending(map[])
    else
      match ScanItems(held, uid, items[..|items| - 1])
      case Refused(reason) => Refused(reason)
      case Pending(pending) => ScanItem(held, uid, items[|items| - 1], pending)
  }

  function GrantStatic(st: Claims, uid: UID, pending: map<Key, int>): Claims {
    st.(held := Granted(st.held, pending.Keys, uid), statics := Granted(st.statics, pending.Keys, uid),
        ttls := st.ttls + pending, staticSets := st.staticSets + {uid})
  }

  function StaticStep(st: Claims, ask: StaticAsk): Claims {
    if ask.aside || Reason(st.reasons, ask.uid) != "" then st
    else
      match ScanItems(st.held, ask.uid, ask.items)
      case Refused(reason) => st.(reasons := st.reasons[ask.uid := reason])
      case Pending(pending) => GrantStatic(st, ask.uid, pending)
  }

  function StaticClaims(rejected: map<UID, string>, asks: seq<StaticAsk>): Claims {
    if asks == [] then Claims(map[], map[], map[], {}, {}, rejected)
    else StaticStep(StaticClaims(rejected, asks[..|asks| - 1]), asks[|asks| - 1])
  }

  function Judge(held: map<Key, UID>, ask: RegistrationAsk): Verdict {
    if ask.verdict == Accept && exists k | k in ask.keys :: Contested(held, k, ask.uid) then Refuse("NameConflict")
    else ask.verdict
  }

  function GrantRegistration(st: Claims, ask: RegistrationAsk): Claims {
    st.(held := Granted(st.held, ask.keys, ask.uid), registrations := st.registrations + {ask.uid})
  }

  function RegistrationStep(st: Claims, ask: RegistrationAsk): Claims {
    match Judge(st.held, ask)
    case Ignore => st
    case Refuse(reason) => st.(reasons := st.reasons[ask.uid := reason])
    case Accept => if Reason(st.reasons, ask.uid) != "" then st else GrantRegistration(st, ask)
  }

  function RegistrationClaims(st: Claims, asks: seq<RegistrationAsk>): Claims {
    if asks == [] then st
    else RegistrationStep(RegistrationClaims(st, asks[..|asks| - 1]), asks[|asks| - 1])
  }

  // ----- what the table guarantees ------------------------------------------

  ghost function StaticAskUids(asks: seq<StaticAsk>): set<UID> {
    set a | a in asks :: a.uid
  }

  ghost function RegistrationAskUids(asks: seq<RegistrationAsk>): set<UID> {
    set a | a in asks :: a.uid
  }

  ghost predicate DistinctStaticAsks(asks: seq<StaticAsk>) {
    forall i, j :: 0 <= i < j < |asks| ==> asks[i].uid != asks[j].uid
  }

  ghost predicate DistinctRegistrationAsks(asks: seq<RegistrationAsk>) {
    forall i, j :: 0 <= i < j < |asks| ==> asks[i].uid != asks[j].uid
  }

  /** Every claim belongs to an accepted source. */
  ghost predicate HoldersAccepted(st: Claims) {
    && (forall k :: k in st.held ==> if k in st.statics then st.held[k] in st.staticSets else st.held[k] in st.registrations)
    && (forall k :: k in st.statics ==> k in st.held && st.held[k] == st.statics[k])
    && (forall u :: u in st.staticSets || u in st.registrations ==> Reason(st.reasons, u) == "")
  }

  /** An accepted static set holds the key of each of its records. */
  ghost predicate StaticsHold(asks: seq<StaticAsk>, st: Claims) {
    forall a, item :: a in asks && a.uid in st.staticSets && item in a.items ==>
      item.key in st.statics && st.statics[item.key] == a.uid
  }

  /** An accepted registration holds exactly the keys it asked for. */
  ghost predicate RegistrationsHold(asks: seq<RegistrationAsk>, st: Claims) {
    forall a :: a in asks && a.uid in st.registrations ==> forall k :: k in a.keys <==> k in st.held && st.held[k] == a.uid
  }

  /** A CNAME has its name to itself, among different sources. */
  ghost predicate CnameExclusive(held: map<Key, UID>) {
    forall k, other :: k in held && other in held && k.name == other.name && k.rtype == CNAME ==> held[k] == held[other]
  }

  /** Handing uncontested keys to a new holder keeps CNAMEs exclusive and takes nothing away. */
  lemma GrantExclusive(held: map<Key, UID>, keys: set<Key>, uid: UID)
    requires CnameExclusive(held)
    requires forall k :: k in keys ==> !Contested(held, k, uid)
    requires forall k :: k in held ==> held[k] != uid
    ensures forall k :: k in keys ==> k !in held
    ensures CnameExclusive(Granted(held, keys, uid))
  {
    var after := Granted(held, keys, uid);
    forall k, other | k in after && other in after && k.name == other.name && k.rtype == CNAME
      ensures after[k] == after[other]
    {
      assert k in keys && other !in keys ==> Contested(held, k, uid);
      assert k == Key(other.name, CNAME);
      assert k !in keys && other in keys ==> Contested(held, other, uid);
    }
  }

  lemma {:induction false} ScanPending(held: map<Key, UID>, uid: UID, items: seq<Item>)
    ensures var scan := ScanItems(held, uid, items);
            scan.Pending? ==>
              && (forall k :: k in scan.ttls ==> !Contested(held, k, uid))
              && (forall item :: item in items ==> item.key in scan.ttls)
              && (forall k :: k in scan.ttls ==> exists item :: item in items && item.key == k)
  {
    if items != [] {
      var before, last := items[..|items| - 1], items[|items| - 1];
      ScanPending(held, uid, before);
      assert items == before + [last];
      var scan := ScanItems(held, uid, items);
      if scan.Pending? {
        forall k | k in scan.ttls ensures exists item :: item in items && item.key == k {
          if k != last.key {
            var item :| item in before && item.key == k;
            assert item in items;
          } else {
            assert last in items;
          }
        }
      }
    }
  }

  ghost predicate StaticPhase(asks: seq<StaticAsk>, st: Claims) {
    && HoldersAccepted(st) && StaticsHold(asks, st) && CnameExclusive(st.held)
    && st.staticSets <= StaticAskUids(asks) && st.registrations == {}
  }

  lemma StaticStepKeeps(asks: seq<StaticAsk>, st: Claims, ask: StaticAsk)
    requires StaticPhase(asks, st) && ask.uid !in StaticAskUids(asks)
    ensures StaticPhase(asks + [ask], StaticStep(st, ask))
  {
    assert StaticAskUids(asks + [ask]) == StaticAskUids(asks) + {ask.uid};
    var scan := ScanItems(st.held, ask.uid, ask.items);
    var next := StaticStep(st, ask);
    if next.staticSets != st.staticSets {
      GrantStaticKeeps(asks, st, ask, scan.ttls);
    } else {
      assert forall a :: a in asks + [ask] && a.uid in next.staticSets ==> a in asks;
    }
  }

  lemma GrantStaticKeeps(asks: seq<StaticAsk>, st: Claims, ask: StaticAsk, pending: map<Key, int>)
    requires StaticPhase(asks, st) && ask.uid !in StaticAskUids(asks) && Reason(st.reasons, ask.uid) == ""
    requires ScanItems(st.held, ask.uid, ask.items) == Pending(pending)
    ensures StaticPhase(asks + [ask], GrantStatic(st, ask.uid, pending))
  {
    assert StaticAskUids(asks + [ask]) == StaticAskUids(asks) + {ask.uid};
    ScanPending(st.held, ask.uid, ask.items);
    GrantExclusive(st.held, pending.Keys, ask.uid);
    GrantHolders(st, ask.uid, pending);
    GrantItems(asks, st, ask, pending);
  }

  lemma GrantHolders(st: Claims, uid: UID, pending: map<Key, int>)
    requires HoldersAccepted(st) && Reason(st.reasons, uid) == "" && forall k :: k in pending ==> k !in st.held
    ensures HoldersAccepted(GrantStatic(st, uid, pending))
  {
  }

  lemma GrantItems(asks: seq<StaticAsk>, st: Claims, ask: StaticAsk, pending: map<Key, int>)
    requires StaticsHold(asks, st) && ask.uid !in StaticAskUids(asks) && HoldersAccepted(st)
    requires (forall item :: item in ask.items ==> item.key in pending) && forall k :: k in pending ==> k !in st.held
    ensures StaticsHold(asks + [ask], GrantStatic(st, ask.uid, pending))
  {
    var next := GrantStatic(st, ask.uid, pending);
    forall a, item | a in asks + [ask] && a.uid in next.staticSets && item in a.items
      ensures item.key in next.statics && next.statics[item.key] == a.uid
    {
      if a in asks { assert a.uid in StaticAskUids(asks); }
    }
  }

  lemma {:induction false} StaticClaimsHold(rejected: map<UID, string>, asks: seq<StaticAsk>)
    requires DistinctStaticAsks(asks)
    ensures StaticPhase(asks, StaticClaims(rejected, asks))
  {
    if asks != [] {
      var before, last := asks[..|asks| - 1], asks[|asks| - 1];
      assert asks == before + [last];
      StaticClaimsHold(rejected, before);
      StaticStepKeeps(before, StaticClaims(rejected, before), last);
    }
  }

  lemma {:induction false} StaticReasons(rejected: map<UID, string>, asks: seq<StaticAsk>, u: UID)
    ensures u !in StaticAskUids(asks) ==> Reason(StaticClaims(rejected, asks).reasons, u) == Reason(rejected, u)
    ensures Reason(rejected, u) != "" ==>
              && Reason(StaticClaims(rejected, asks).reasons, u) == Reason(rejected, u)
              && u !in StaticClaims(rejected, asks).staticSets
  {
    if asks != [] {
      var before, last := asks[..|asks| - 1], asks[|asks| - 1];
      StaticReasons(rejected, before, u);
      assert StaticAskUids(asks) == StaticAskUids(before) + {last.uid};
    }
  }

  ghost predicate Table(statics: seq<StaticAsk>, asks: seq<RegistrationAsk>, st: Claims) {
    && HoldersAccepted(st) && StaticsHold(statics, st) && RegistrationsHold(asks, st) && CnameExclusive(st.held)
    && st.staticSets <= StaticAskUids(statics) && st.registrations <= RegistrationAskUids(asks)
  }

  lemma GrantRegistrationKeeps(statics: seq<StaticAsk>, asks: seq<RegistrationAsk>, st: Claims, ask: RegistrationAsk)
    requires Table(statics, asks, st) && ask.uid !in RegistrationAskUids(asks) && ask.uid !in StaticAskUids(statics)
    requires Reason(st.reasons, ask.uid) == "" && forall k :: k in ask.keys ==> !Contested(st.held, k, ask.uid)
    ensures HoldersAccepted(GrantRegistration(st, ask)) && StaticsHold(statics, GrantRegistration(st, ask))
    ensures RegistrationsHold(asks + [ask], GrantRegistration(st, ask)) && CnameExclusive(GrantRegistration(st, ask).held)
  {
    GrantExclusive(st.held, ask.keys, ask.uid);
    var next := GrantRegistration(st, ask);
    forall a | a in asks + [ask] && a.uid in next.registrations
      ensures forall k :: k in a.keys <==> k in next.held && next.held[k] == a.uid
    {
      if a != ask {
        assert a in asks && a.uid in RegistrationAskUids(asks);
      }
    }
  }

  lemma RegistrationStepKeeps(statics: seq<StaticAsk>, asks: seq<RegistrationAsk>, st: Claims, ask: RegistrationAsk)
    requires Table(statics, asks, st) && ask.uid !in RegistrationAskUids(asks) && ask.uid !in StaticAskUids(statics)
    ensures Table(statics, asks + [ask], RegistrationStep(st, ask))
  {
    assert RegistrationAskUids(asks + [ask]) == RegistrationAskUids(asks) + {ask.uid};
    if Judge(st.held, ask) == Accept && Reason(st.reasons, ask.uid) == "" {
      GrantRegistrationKeeps(statics, asks, st, ask);
    } else {
      var next := RegistrationStep(st, ask);
      assert next.held == st.held && next.registrations == st.registrations;
      assert forall a :: a in asks + [ask] && a.uid in next.registrations ==> a in asks;
    }
  }

  lemma {:induction false} RegistrationClaimsHold(statics: seq<StaticAsk>, st: Claims, asks: seq<RegistrationAsk>)
    requires StaticPhase(statics, st) && DistinctRegistrationAsks(asks)
    requires RegistrationAskUids(asks) !! StaticAskUids(statics)
    ensures Table(statics, asks, RegistrationClaims(st, asks))
    ensures RegistrationClaims(st, asks).staticSets == st.staticSets
  {
    if asks != [] {
      var before, last := asks[..|asks| - 1], asks[|asks| - 1];
      assert asks == before + [last];
      assert RegistrationAskUids(asks) == RegistrationAskUids(before) + {last.uid};
      RegistrationClaimsHold(statics, st, before);
      RegistrationStepKeeps(statics, before, RegistrationClaims(st, before), last);
    }
  }

  lemma {:induction false} RegistrationReasons(st: Claims, asks: seq<RegistrationAsk>, u: UID)
    requires u !in RegistrationAskUids(asks)
    ensures Reason(RegistrationClaims(st, asks).reasons, u) == Reason(st.reasons, u)
    ensures u in RegistrationClaims(st, asks).registrations <==> u in st.registrations
  {
    if asks != [] {
      var before, last := asks[..|asks| - 1], asks[|asks| - 1];
      assert RegistrationAskUids(asks) == RegistrationAskUids(before) + {last.uid};
      RegistrationReasons(st, before, u);
    }
  }

  /**
   * Seniority: whatever asks after a registration, the verdict on it and what
   * it holds stay as they were.
   */
  lemma {:induction false} Seniority(st: Claims, older: seq<RegistrationAsk>, younger: seq<RegistrationAsk>, u: UID)
    requires u !in RegistrationAskUids(younger)
    ensures var before, after := RegistrationClaims(st, older), RegistrationClaims(st, older + younger);
            && (u in before.registrations <==> u in after.registrations)
            && Reason(before.reasons, u) == Reason(after.reasons, u)
  {
    if younger == [] {
      assert older + younger == older;
    } else {
      var rest, last := younger[..|younger| - 1], younger[|younger| - 1];
      assert RegistrationAskUids(younger) == RegistrationAskUids(rest) + {last.uid};
      assert (older + younger)[..|older + younger| - 1] == older + rest;
      Seniority(st, older, rest, u);
    }
  }

  /** Some key asked for is in another source's way. */
  predicate AnyContested(held: map<Key, UID>, ask: RegistrationAsk) {
    exists k | k in ask.keys :: Contested(held, k, ask.uid)
  }

  /**
   * A registration is accepted exactly when its own checks accept it and, when
   * its turn comes, nothing it asks for is in another source's way.
   */
  lemma AcceptedAtTurn(st: Claims, asks: seq<RegistrationAsk>, n: nat)
    requires DistinctRegistrationAsks(asks) && n < |asks| && asks[n].uid !in st.registrations && Reason(st.reasons, asks[n].uid) == ""
    ensures var before, after, ask := RegistrationClaims(st, asks[..n]), RegistrationClaims(st, asks), asks[n];
            && (ask.uid in after.registrations <==> ask.verdict == Accept && !AnyContested(before.held, ask))
            && Reason(after.reasons, ask.uid) == match Judge(before.held, ask)
                                                 case Refuse(reason) => reason
                                                 case _ => ""
  {
    var u := asks[n].uid;
    AskedOnce(asks, n);
    RegistrationReasons(st, asks[..n], u);
    Seniority(st, asks[..n + 1], asks[n + 1..], u);
    TurnTaken(st, asks, n);
  }

  lemma AskedOnce(asks: seq<RegistrationAsk>, n: nat)
    requires DistinctRegistrationAsks(asks) && n < |asks|
    ensures asks[n].uid !in RegistrationAskUids(asks[..n]) && asks[n].uid !in RegistrationAskUids(asks[n + 1..])
    ensures asks == asks[..n + 1] + asks[n + 1..]
  {
    forall a | a in asks[..n] ensures a.uid != asks[n].uid { var i :| 0 <= i < n && asks[i] == a; }
    forall a | a in asks[n + 1..] ensures a.uid != asks[n].uid {
      var i :| 0 <= i < |asks[n + 1..]| && asks[n + 1..][i] == a;
      assert asks[n + 1 + i] == a;
    }
  }

  lemma TurnTaken(st: Claims, asks: seq<RegistrationAsk>, n: nat)
    requires n < |asks|
    ensures RegistrationClaims(st, asks[..n + 1]) == RegistrationStep(RegistrationClaims(st, asks[..n]), asks[n])
  {
    assert asks[..n + 1][..n] == asks[..n];
  }

  /**
   * Which holder a CNAME search reports depends on map order; the verdict drawn
   * from it does not, for a registration that holds what it asked for.
   */
  lemma VerdictIgnoresMapOrder(statics: seq<StaticAsk>, asks: seq<RegistrationAsk>, st: Claims,
                               ask: RegistrationAsk, key: Key, reported: UID)
    requires Table(statics, asks, st) && ask in asks && ask.uid in st.registrations
    requires (exists k :: k in ask.keys && k.name == key.name) ==> key in ask.keys
    requires Reports(st.held, key, reported)
    ensures reported != ask.uid <==> Contested(st.held, key, ask.uid)
  {
    if key !in st.held && key.rtype == CNAME {
      forall k | k in st.held && k.name == key.name ensures st.held[k] != ask.uid {
        assert k in ask.keys ==> key in ask.keys;
      }
    }
  }

  // ----- rejections that concern nobody here --------------------------------

  /** The same claims, with possibly different reasons recorded. */
  predicate SameGrants(a: Claims, b: Claims) {
    a == b.(reasons := a.reasons)
  }

  /** The recorded reasons agree on `uids`. */
  ghost predicate AgreeOn(a: map<UID, string>, b: map<UID, string>, uids: set<UID>) {
    forall u :: u in uids ==> Reason(a, u) == Reason(b, u)
  }

  lemma {:induction false} StaticClaimsAlike(r1: map<UID, string>, r2: map<UID, string>, asks: seq<StaticAsk>, uids: set<UID>)
    requires AgreeOn(r1, r2, uids) && StaticAskUids(asks) <= uids
    ensures SameGrants(StaticClaims(r1, asks), StaticClaims(r2, asks))
    ensures AgreeOn(StaticClaims(r1, asks).reasons, StaticClaims(r2, asks).reasons, uids)
  {
    if asks != [] {
      var before, last := asks[..|asks| - 1], asks[|asks| - 1];
      assert last in asks && forall a :: a in before ==> a in asks;
      assert last.uid in StaticAskUids(asks);
      StaticClaimsAlike(r1, r2, before, uids);
    }
  }

  lemma {:induction false} RegistrationClaimsAlike(a: Claims, b: Claims, asks: seq<RegistrationAsk>, uids: set<UID>)
    requires SameGrants(a, b) && AgreeOn(a.reasons, b.reasons, uids) && RegistrationAskUids(asks) <= uids
    ensures SameGrants(RegistrationClaims(a, asks), RegistrationClaims(b, asks))
    ensures AgreeOn(RegistrationClaims(a, asks).reasons, RegistrationClaims(b, asks).reasons, uids)
  {
    if asks != [] {
      var before, last := asks[..|asks| - 1], asks[|asks| - 1];
      assert last in asks && forall x :: x in before ==> x in asks;
      assert last.uid in RegistrationAskUids(asks);
      RegistrationClaimsAlike(a, b, before, uids);
    }
  }
}
