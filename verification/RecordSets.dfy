/** What a record set wants in its PowerDNS zone, and which RRsets it has written. */
module RecordSets {
  import opened Text
  import opened Names
  import opened Sorting
  import opened PowerDns

  /** `value` is the rendered content for the set's type, empty when the entry has none. */
  datatype Entry = Entry(name: string, ttl: Option<int>, value: string)

  datatype RecordSet = RecordSet(
    namespace: string, name: string, uid: string, generation: int, rtype: string, records: seq<Entry>)

  const RECORD_TTL := 300

  /** The value of the ownership comment. */
  function Ref(rs: RecordSet): (r: string)
    ensures r != ""
  {
    rs.namespace + ":" + rs.name
  }

  function IsNamed(owner: string): Entry -> bool {
    (e: Entry) => e.name == owner
  }

  /** The values of one RRset: non-empty, each once, a single one for CNAME. */
  function Values(rtype: string, entries: seq<Entry>): (values: seq<string>) {
    if entries == [] then []
    else
      var before, v := Values(rtype, entries[..|entries| - 1]), entries[|entries| - 1].value;
      if v == "" || v in before || (rtype == CNAME_TYPE && before != []) then before else before + [v]
  }

  /** The values of an RRset are the non-empty ones of its entries, each once; a CNAME keeps only the first. */
  lemma {:induction false} ValuesAre(rtype: string, entries: seq<Entry>)
    ensures var values := Values(rtype, entries);
            && "" !in values && (forall i, j :: 0 <= i < j < |values| ==> values[i] != values[j])
            && (rtype != CNAME_TYPE ==> forall v :: v in values <==> v != "" && exists e :: e in entries && e.value == v)
            && (rtype == CNAME_TYPE ==> values == FirstValue(entries))
  {
    if entries != [] {
      var before, last := entries[..|entries| - 1], entries[|entries| - 1];
      ValuesAre(rtype, before);
      assert entries == before + [last];
      FirstValueLast(before, last);
    }
  }

  function FirstValue(entries: seq<Entry>): seq<string> {
    if entries == [] then [] else if entries[0].value != "" then [entries[0].value] else FirstValue(entries[1..])
  }

  lemma {:induction false} FirstValueLast(before: seq<Entry>, last: Entry)
    ensures FirstValue(before + [last]) ==
            if FirstValue(before) != [] then FirstValue(before) else if last.value != "" then [last.value] else []
  {
    if before == [] {
      assert before + [last] == [last] && [last][1..] == [];
    } else {
      FirstValueLast(before[1..], last);
      assert (before + [last])[1..] == before[1..] + [last];
    }
  }

  function TtlOf(entries: seq<Entry>): int {
    if entries == [] || entries[0].ttl.None? then RECORD_TTL else entries[0].ttl.value
  }

  function DataOf(rs: RecordSet, owner: string): Data {
    var entries := Filter(IsNamed(owner), rs.records);
    Data(TtlOf(entries), Values(rs.rtype, entries))
  }

  function Stamp(rs: RecordSet): (cs: seq<Comment>)
    ensures cs != []
  {
    [OwnerRef(Ref(rs)), ObservedGeneration(rs.generation)] + if rs.uid == "" then [] else [ObjectUid(rs.uid)]
  }

  function OwnerNames(records: seq<Entry>): set<string> {
    set e | e in records :: e.name
  }

  /** No two owners of a record set spell the same name. */
  ghost predicate OneSpelling(zone: string, rs: RecordSet) {
    forall a, b :: a in OwnerNames(rs.records) && b in OwnerNames(rs.records) && Qualify(a, zone) == Qualify(b, zone) ==> a == b
  }

  function KeyOf(zone: string, rs: RecordSet, owner: string): Key {
    Key(Qualify(owner, zone), rs.rtype)
  }

  /** The cell an RRset should hold for an owner. */
  function Programmed(rs: RecordSet, owner: string): Cell {
    Cell(Some(DataOf(rs, owner)), Stamp(rs))
  }

  function WriteOf(zone: string, rs: RecordSet, owner: string): Change {
    Replace(KeyOf(zone, rs, owner), DataOf(rs, owner), Stamp(rs))
  }

  function Wanted(zone: string, rs: RecordSet): set<string> {
    set owner | owner in OwnerNames(rs.records) :: Qualify(owner, zone)
  }

  predicate Desires(zone: string, rs: RecordSet, k: Key) {
    k.rtype == rs.rtype && k.name in Wanted(zone, rs)
  }

  // ----- reading comments back ----------------------------------------------

  /** The last generation and UID comments. */
  function StampedGeneration(cs: seq<Comment>): int {
    if cs == [] then 0
    else if cs[|cs| - 1].ObservedGeneration? then cs[|cs| - 1].value
    else StampedGeneration(cs[..|cs| - 1])
  }

  function StampedUid(cs: seq<Comment>): string {
    if cs == [] then ""
    else if cs[|cs| - 1].ObjectUid? then cs[|cs| - 1].uid
    else StampedUid(cs[..|cs| - 1])
  }

  /** The record set that wrote the RRset, by its first ownership comment. */
  function StampedRef(cs: seq<Comment>): string {
    if cs == [] then "" else if cs[0].OwnerRef? then cs[0].ref else StampedRef(cs[1..])
  }

  /** The RRset was written by this object at this generation. */
  predicate MatchesObject(cell: Cell, rs: RecordSet) {
    cell.comments != [] && StampedGeneration(cell.comments) == rs.generation && StampedUid(cell.comments) == rs.uid
  }

  lemma StampReads(rs: RecordSet)
    ensures StampedRef(Stamp(rs)) == Ref(rs)
    ensures StampedGeneration(Stamp(rs)) == rs.generation && StampedUid(Stamp(rs)) == rs.uid
  {
    var two := [OwnerRef(Ref(rs)), ObservedGeneration(rs.generation)];
    assert two[..1] == [OwnerRef(Ref(rs))] && two[..1][..0] == [];
    assert StampedUid(two[..1]) == "";
    if rs.uid != "" {
      assert Stamp(rs)[..2] == two;
    } else {
      assert Stamp(rs) == two;
    }
  }

  // ----- only the operator writes -------------------------------------------

  /** `written` lists record set versions; a UID and generation fix the specification. */
  ghost predicate Versions(written: set<RecordSet>) {
    forall a, b :: a in written && b in written && a.uid == b.uid && a.generation == b.generation ==> a == b
  }

  /** The cell is what some version wrote. */
  ghost predicate WrittenBy(zone: string, rs: RecordSet, k: Key, cell: Cell) {
    exists owner :: owner in OwnerNames(rs.records) && k == KeyOf(zone, rs, owner) && cell == Programmed(rs, owner)
  }

  ghost predicate WrittenBySome(zone: string, written: set<RecordSet>, k: Key, cell: Cell) {
    exists rs :: rs in written && WrittenBy(zone, rs, k, cell)
  }

  /** Every stamped RRset holds what the stamping version asked for. */
  ghost predicate Faithful(zone: string, written: set<RecordSet>, z: Zone) {
    forall k :: k in z && z[k].comments != [] ==> WrittenBySome(zone, written, k, z[k])
  }

  lemma WrittenStamp(zone: string, rs: RecordSet, k: Key, cell: Cell)
    requires WrittenBy(zone, rs, k, cell)
    ensures StampedRef(cell.comments) == Ref(rs)
    ensures StampedGeneration(cell.comments) == rs.generation && StampedUid(cell.comments) == rs.uid
  {
    StampReads(rs);
  }

  /** The skip is safe: an RRset whose stamp matches already holds the desired records. */
  lemma SkippedHolds(zone: string, written: set<RecordSet>, z: Zone, rs: RecordSet, owner: string)
    requires Versions(written) && rs in written && Faithful(zone, written, z) && OneSpelling(zone, rs)
    requires owner in OwnerNames(rs.records) && MatchesObject(At(z, KeyOf(zone, rs, owner)), rs)
    ensures At(z, KeyOf(zone, rs, owner)) == Programmed(rs, owner)
  {
    var k := KeyOf(zone, rs, owner);
    assert k in z;
    var o :| o in written && WrittenBy(zone, o, k, z[k]);
    WrittenStamp(zone, o, k, z[k]);
    assert o == rs;
    var other :| other in OwnerNames(rs.records) && k == KeyOf(zone, rs, other) && z[k] == Programmed(rs, other);
    assert other == owner;
  }

  // ----- the target ---------------------------------------------------------

  /** An RRset this record set wrote and no longer wants. */
  predicate Surplus(zone: string, rs: RecordSet, z: Zone, k: Key) {
    k in z && StampedRef(z[k].comments) == Ref(rs) && !Desires(zone, rs, k)
  }

  /** What a successful pass makes of one RRset. */
  ghost predicate OnTarget(zone: string, rs: RecordSet, z: Zone, after: Zone, k: Key) {
    if Desires(zone, rs, k) then WrittenBy(zone, rs, k, At(after, k))
    else At(after, k) == if Surplus(zone, rs, z, k) then EMPTY else At(z, k)
  }

  /** The zone holds the record set: its RRsets and no others carry its stamp. */
  ghost predicate Converged(zone: string, rs: RecordSet, z: Zone) {
    && (forall k :: Desires(zone, rs, k) ==> WrittenBy(zone, rs, k, At(z, k)))
    && (forall k :: !Surplus(zone, rs, z, k))
  }

  lemma TargetConverged(zone: string, rs: RecordSet, z: Zone, after: Zone)
    requires forall k :: OnTarget(zone, rs, z, after, k)
    ensures Converged(zone, rs, after)
  {
    forall k ensures Desires(zone, rs, k) ==> WrittenBy(zone, rs, k, At(after, k)) {
      assert OnTarget(zone, rs, z, after, k);
    }
    forall k ensures !Surplus(zone, rs, after, k) {
      assert OnTarget(zone, rs, z, after, k);
    }
  }

  /** At most one zone is on target, so the generation skip cannot change where a pass ends. */
  lemma TargetUnique(zone: string, rs: RecordSet, z: Zone, a: Zone, b: Zone)
    requires OneSpelling(zone, rs) && Normal(a) && Normal(b)
    requires forall k :: OnTarget(zone, rs, z, a, k) && OnTarget(zone, rs, z, b, k)
    ensures a == b
  {
    forall k ensures At(a, k) == At(b, k) {
      assert OnTarget(zone, rs, z, a, k) && OnTarget(zone, rs, z, b, k);
    }
    SameZone(a, b);
  }

  /** Once converged there is nothing to write and nothing to delete. */
  lemma ConvergedQuiet(zone: string, rs: RecordSet, z: Zone, owner: string)
    requires Converged(zone, rs, z) && owner in OwnerNames(rs.records)
    ensures KeyOf(zone, rs, owner) in z && MatchesObject(z[KeyOf(zone, rs, owner)], rs)
  {
    var k := KeyOf(zone, rs, owner);
    assert Desires(zone, rs, k);
    WrittenStamp(zone, rs, k, At(z, k));
  }
}
