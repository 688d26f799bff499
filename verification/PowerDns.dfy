/**
 * A PowerDNS zone and its PATCH: changes apply in order inside one
 * transaction, a DELETE leaves the comments of its RRset behind, and a REPLACE
 * is refused while its name holds a type it cannot stand beside.
 */
module PowerDns {
  import opened Text
  import opened Sorting

  const CNAME_TYPE := "CNAME"

  datatype Key = Key(name: string, rtype: string)

  datatype Data = Data(ttl: int, values: seq<string>)

  /** The three comments the operator stamps on an RRset, and anybody else's. */
  datatype Comment = OwnerRef(ref: string) | ObservedGeneration(value: int) | ObjectUid(uid: string) | Foreign(text: string)

  /** Records and comments live in separate tables; a cell holds both sides of one key. */
  datatype Cell = Cell(data: Option<Data>, comments: seq<Comment>)

  const EMPTY := Cell(None, [])

  /** The RRsets a zone read lists: those with records and those with only comments. */
  type Zone = map<Key, Cell>

  ghost predicate Normal(z: Zone) {
    forall k :: k in z ==> z[k] != EMPTY
  }

  function At(z: Zone, k: Key): Cell {
    if k in z then z[k] else EMPTY
  }

  function Put(z: Zone, k: Key, c: Cell): Zone {
    if c == EMPTY then z - {k} else z[k := c]
  }

  lemma SameZone(a: Zone, b: Zone)
    requires Normal(a) && Normal(b) && forall k :: At(a, k) == At(b, k)
    ensures a == b
  {
    forall k ensures k in a <==> k in b { assert At(a, k) == At(b, k); }
    forall k | k in a ensures a[k] == b[k] { assert At(a, k) == At(b, k); }
  }

  // ----- one PATCH ----------------------------------------------------------

  /** Clear is the REPLACE without records that removes comments. */
  datatype Change =
    | Delete(key: Key)
    | Replace(key: Key, data: Data, comments: seq<Comment>)
    | Clear(key: Key)

  function Effect(z: Zone, c: Change): Zone {
    match c
    case Delete(k) => Put(z, k, At(z, k).(data := None))
    case Replace(k, d, cs) => Put(z, k, Cell(Some(d), if cs == [] then At(z, k).comments else cs))
    case Clear(k) => Put(z, k, At(z, k).(comments := []))
  }

  function Effects(z: Zone, patch: seq<Change>): Zone {
    if patch == [] then z else Effect(Effects(z, patch[..|patch| - 1]), patch[|patch| - 1])
  }

  /** Two types that may not share a name. */
  predicate Excludes(a: string, b: string) {
    a != b && (a == CNAME_TYPE || b == CNAME_TYPE)
  }

  /** The name holds records of a type that excludes the one written. */
  predicate Conflict(z: Zone, c: Change) {
    c.Replace? && exists k | k in z :: k.name == c.key.name && Excludes(k.rtype, c.key.rtype) && z[k].data.Some?
  }

  /** The changes that conflict with what their name holds when their turn comes. */
  function Refused(z: Zone, patch: seq<Change>): set<Key> {
    if patch == [] then {}
    else
      var before, c := patch[..|patch| - 1], patch[|patch| - 1];
      Refused(z, before) + if Conflict(Effects(z, before), c) then {c.key} else {}
  }

  /** PowerDNS rejects a REPLACE that lists no records. */
  predicate Malformed(patch: seq<Change>) {
    exists c | c in patch :: c.Replace? && c.data.values == []
  }

  /** Refusal names changes that conflict; Failed is any other error, whose effect the client cannot know. */
  datatype Outcome = Applied | Refusal(named: set<Key>) | Failed

  /** What the server may answer and the zone it may leave. */
  ghost predicate Answers(z: Zone, patch: seq<Change>, outcome: Outcome, after: Zone) {
    match outcome
    case Applied => Refused(z, patch) == {} && !Malformed(patch) && after == Effects(z, patch)
    case Refusal(named) => named != {} && named <= Refused(z, patch) && after == z
    case Failed => after == z || (Refused(z, patch) == {} && !Malformed(patch) && after == Effects(z, patch))
  }

  /** The answer fails for no other reason than a write without records. */
  ghost predicate Honest(z: Zone, patch: seq<Change>, outcome: Outcome, after: Zone) {
    Answers(z, patch, outcome, after) && (outcome.Failed? ==> Malformed(patch))
  }

  /** `patches` counts the PATCH requests received, `faults` those that failed although they were well-formed. */
  class Server {
    var zone: Zone
    var patches: nat
    var faults: nat

    constructor (z: Zone)
      ensures zone == z && patches == 0 && faults == 0
    {
      zone, patches, faults := z, 0, 0;
    }

    /** The exchange may fail at any time, before or after the transaction. */
    method Patch(patch: seq<Change>) returns (outcome: Outcome)
      modifies this
      ensures Answers(old(zone), patch, outcome, zone)
      ensures patches == old(patches) + 1
      ensures faults >= old(faults) && (faults == old(faults) <==> Honest(old(zone), patch, outcome, zone))
    {
      patches := patches + 1;
      var refused := Refused(zone, patch);
      var fault: bool := *;
      var late: bool := *;
      if refused != {} && !fault {
        var key :| key in refused;
        return Refusal({key});
      }
      if fault || Malformed(patch) {
        if !Malformed(patch) {
          faults := faults + 1;
          if late && refused == {} {
            zone := Effects(zone, patch);
          }
        }
        return Failed;
      }
      zone := Effects(zone, patch);
      return Applied;
    }
  }

  // ----- the patch the client sends -----------------------------------------

  /** Deletes first, then by type, name and kind. */
  predicate ChangeLeq(a: Change, b: Change) {
    if a.Delete? != b.Delete? then a.Delete?
    else if a.key.rtype != b.key.rtype then Leq(a.key.rtype, b.key.rtype)
    else Leq(a.key.name, b.key.name)
  }

  function Clearing(c: Change): seq<Change> {
    if c.Delete? then [c, Clear(c.key)] else [c]
  }

  /** A comment clear right behind every delete. */
  function WithClears(patch: seq<Change>): seq<Change> {
    FlatMap(Clearing, patch)
  }

  function Sent(batch: seq<Change>): seq<Change> {
    WithClears(Sort(ChangeLeq, batch))
  }

  /** No RRset is both replaced and deleted; the client refuses to build such a patch. */
  predicate Buildable(batch: seq<Change>) {
    forall c, d | c in batch && d in batch :: c.Delete? && !d.Delete? ==> c.key != d.key
  }

  // ----- its meaning --------------------------------------------------------

  ghost predicate DistinctKeys(batch: seq<Change>) {
    forall i, j :: 0 <= i < j < |batch| ==> batch[i].key != batch[j].key
  }

  ghost predicate NoClears(batch: seq<Change>) {
    forall i :: 0 <= i < |batch| ==> !batch[i].Clear?
  }

  function Find(batch: seq<Change>, k: Key): Option<Change> {
    if batch == [] then None
    else if batch[|batch| - 1].key == k then Some(batch[|batch| - 1])
    else Find(batch[..|batch| - 1], k)
  }

  /** What one change means for the RRset it names. */
  function Meant(cell: Cell, change: Option<Change>): Cell {
    match change
    case None => cell
    case Some(Delete(_)) => EMPTY
    case Some(Replace(_, d, cs)) => Cell(Some(d), if cs == [] then cell.comments else cs)
    case Some(Clear(_)) => cell.(comments := [])
  }

  lemma FindIn(batch: seq<Change>, c: Change)
    requires DistinctKeys(batch) && c in batch
    ensures Find(batch, c.key) == Some(c)
  {
    var last := batch[|batch| - 1];
    if c.key != last.key {
      assert c in batch[..|batch| - 1];
      FindIn(batch[..|batch| - 1], c);
    } else {
      var i :| 0 <= i < |batch| && batch[i] == c;
    }
  }

  lemma {:induction false} FindMember(batch: seq<Change>, k: Key)
    ensures Find(batch, k).Some? ==> Find(batch, k).value in batch && Find(batch, k).value.key == k
  {
    if batch != [] {
      FindMember(batch[..|batch| - 1], k);
    }
  }

  /** With distinct keys, only which changes there are decides what is found. */
  lemma FindAnyOrder(a: seq<Change>, b: seq<Change>, k: Key)
    requires DistinctKeys(a) && DistinctKeys(b) && forall c :: c in a <==> c in b
    ensures Find(a, k) == Find(b, k)
  {
    FindMember(a, k);
    FindMember(b, k);
    if Find(a, k).Some? { FindIn(b, Find(a, k).value); }
    if Find(b, k).Some? { FindIn(a, Find(b, k).value); }
  }

  lemma {:induction false} EffectsConcat(z: Zone, a: seq<Change>, b: seq<Change>)
    ensures Effects(z, a + b) == Effects(Effects(z, a), b)
    decreases |b|
  {
    if b == [] {
      assert a + b == a;
    } else {
      EffectsConcat(z, a, b[..|b| - 1]);
      assert (a + b)[..|a + b| - 1] == a + b[..|b| - 1];
    }
  }

  lemma EffectsOne(z: Zone, c: Change)
    ensures Effects(z, [c]) == Effect(z, c)
  {
    assert [c][..0] == [];
  }

  lemma ClearingEffects(z: Zone, c: Change, k: Key)
    requires !c.Clear?
    ensures At(Effects(z, Clearing(c)), k) == if c.key == k then Meant(At(z, k), Some(c)) else At(z, k)
    ensures Normal(z) ==> Normal(Effects(z, Clearing(c)))
  {
    if c.Delete? {
      assert [c, Clear(c.key)] == [c] + [Clear(c.key)];
      EffectsConcat(z, [c], [Clear(c.key)]);
      EffectsOne(z, c);
      EffectsOne(Effect(z, c), Clear(c.key));
    } else {
      EffectsOne(z, c);
    }
  }

  lemma WithClearsLast(patch: seq<Change>)
    requires patch != []
    ensures WithClears(patch) == WithClears(patch[..|patch| - 1]) + Clearing(patch[|patch| - 1])
  {
  }

  /** Whatever their order, changes to different RRsets have exactly the effect each one means. */
  lemma {:induction false} EffectsMean(z: Zone, patch: seq<Change>, k: Key)
    requires DistinctKeys(patch) && NoClears(patch)
    ensures At(Effects(z, WithClears(patch)), k) == Meant(At(z, k), Find(patch, k))
    ensures Normal(z) ==> Normal(Effects(z, WithClears(patch)))
  {
    if patch != [] {
      var before, c := patch[..|patch| - 1], patch[|patch| - 1];
      EffectsMean(z, before, k);
      WithClearsLast(patch);
      EffectsConcat(z, WithClears(before), Clearing(c));
      ClearingEffects(Effects(z, WithClears(before)), c, k);
      FindMember(before, k);
      assert c.key == k ==> Find(before, k).None?;
    }
  }
}
