/** Gathering published records into RRsets, each record next to its contribution. */
module Aggregation {
  import opened Text
  import opened Sorting
  import opened Sources

  /** One published record; a static record names no contribution. */
  datatype Entry = Entry(key: Key, record: RecordEntry, uid: Option<UID>, ttl: int)

  datatype Aggregate = Aggregate(ttl: int, records: seq<RecordEntry>, uids: seq<UID>)

  function SourceOf(e: Entry): seq<UID> {
    if e.uid.Some? then [e.uid.value] else []
  }

  /** A key keeps the TTL of the first record gathered there. */
  function AggregateStep(aggregates: map<Key, Aggregate>, e: Entry): map<Key, Aggregate> {
    var a := if e.key in aggregates then aggregates[e.key] else Aggregate(e.ttl, [], []);
    aggregates[e.key := Aggregate(a.ttl, a.records + [e.record], a.uids + SourceOf(e))]
  }

  function Aggregates(entries: seq<Entry>): map<Key, Aggregate> {
    if entries == [] then map[]
    else AggregateStep(Aggregates(entries[..|entries| - 1]), entries[|entries| - 1])
  }

  datatype Sourced = Sourced(record: RecordEntry, uid: UID)

  function SourcedText(marshal: RecordEntry -> string, s: Sourced): string {
    marshal(s.record) + ['\0'] + s.uid
  }

  function SourcedLeq(marshal: RecordEntry -> string): (Sourced, Sourced) -> bool {
    (a: Sourced, b: Sourced) => Leq(SourcedText(marshal, a), SourcedText(marshal, b))
  }

  function RecordLeq(marshal: RecordEntry -> string): (RecordEntry, RecordEntry) -> bool {
    (a: RecordEntry, b: RecordEntry) => Leq(marshal(a), marshal(b))
  }

  function Zip(records: seq<RecordEntry>, uids: seq<UID>): seq<Sourced>
    requires |records| == |uids|
  {
    seq(|records|, i requires 0 <= i < |records| => Sourced(records[i], uids[i]))
  }

  function Unzip(ttl: int, pairs: seq<Sourced>): Aggregate {
    Aggregate(ttl,
              seq(|pairs|, i requires 0 <= i < |pairs| => pairs[i].record),
              seq(|pairs|, i requires 0 <= i < |pairs| => pairs[i].uid))
  }

  /** Records and the contributions they come from are sorted together. */
  function SortAggregate(marshal: RecordEntry -> string, a: Aggregate): Aggregate {
    if |a.uids| != |a.records| then a.(records := Sort(RecordLeq(marshal), a.records))
    else Unzip(a.ttl, Sort(SourcedLeq(marshal), Zip(a.records, a.uids)))
  }

  function RRSetOf(marshal: RecordEntry -> string, key: Key, a: Aggregate): RRSet {
    var sorted := SortAggregate(marshal, a);
    RRSet(key.name, key.rtype, sorted.ttl, sorted.records, sorted.uids)
  }

  lemma UidLinear()
    ensures Linear(Leq)
  {
    forall x, y ensures Leq(x, y) || Leq(y, x) { LeqTotal(x, y); }
    forall x, y, z | Leq(x, y) && Leq(y, z) ensures Leq(x, z) { LeqTransitive(x, y, z); }
    forall x, y | Leq(x, y) && Leq(y, x) ensures x == y { LeqAntisymmetric(x, y); }
  }

  lemma KeyLinear()
    ensures Linear(KeyLeq)
  {
    UidLinear();
    forall x, y, z | KeyLeq(x, y) && KeyLeq(y, z) ensures KeyLeq(x, z) {
      if x.name != y.name && y.name != z.name && x.name == z.name {
        LeqAntisymmetric(x.name, y.name);
      }
    }
  }

  ghost function RRSets(marshal: RecordEntry -> string, aggregates: map<Key, Aggregate>): seq<RRSet> {
    KeyLinear();
    var keys := SortedSet(KeyLeq, aggregates.Keys);
    seq(|keys|, i requires 0 <= i < |keys| => RRSetOf(marshal, keys[i], aggregates[keys[i]]))
  }

  // ----- what an aggregate holds --------------------------------------------

  function At(entries: seq<Entry>, key: Key): seq<Entry> {
    Filter((e: Entry) => e.key == key, entries)
  }

  function RecordOf(e: Entry): seq<RecordEntry> {
    [e.record]
  }

  function Records(entries: seq<Entry>): seq<RecordEntry> {
    FlatMap(RecordOf, entries)
  }

  function Uids(entries: seq<Entry>): seq<UID> {
    FlatMap(SourceOf, entries)
  }

  lemma AtLast(entries: seq<Entry>, key: Key)
    requires entries != []
    ensures At(entries, key) ==
            At(entries[..|entries| - 1], key) + if entries[|entries| - 1].key == key then [entries[|entries| - 1]] else []
  {
    var before, last := entries[..|entries| - 1], entries[|entries| - 1];
    assert entries == before + [last];
    FilterConcat((e: Entry) => e.key == key, before, [last]);
  }

  /** An aggregate is the records of its key, in order, with the first TTL. */
  lemma {:induction false} AggregateAt(entries: seq<Entry>, key: Key)
    ensures key in Aggregates(entries) <==> At(entries, key) != []
    ensures var at := At(entries, key);
            at != [] ==> Aggregates(entries)[key] == Aggregate(at[0].ttl, Records(at), Uids(at))
  {
    if entries != [] {
      var before, last := entries[..|entries| - 1], entries[|entries| - 1];
      AggregateAt(before, key);
      AtLast(entries, key);
      if last.key == key {
        var at := At(before, key);
        assert (at + [last])[..|at + [last]| - 1] == at;
        assert Records(at + [last]) == Records(at) + [last.record];
        assert Uids(at + [last]) == Uids(at) + SourceOf(last);
        assert (at + [last])[0] == if at == [] then last else at[0];
      } else {
        assert At(entries, key) == At(before, key);
      }
    }
  }

  /** No key mixes static records with contributed ones. */
  ghost predicate Unmixed(entries: seq<Entry>) {
    forall a, b :: a in entries && b in entries && a.key == b.key ==> a.uid.Some? == b.uid.Some?
  }

  lemma {:induction false} PairedUids(entries: seq<Entry>)
    requires forall e :: e in entries ==> e.uid.Some?
    ensures |Records(entries)| == |Uids(entries)| == |entries|
    ensures Zip(Records(entries), Uids(entries)) == FlatMap(PairOf, entries)
  {
    if entries != [] {
      PairedUids(entries[..|entries| - 1]);
    }
  }

  lemma {:induction false} NoUids(entries: seq<Entry>)
    requires forall e :: e in entries ==> e.uid.None?
    ensures |Records(entries)| == |entries| && Uids(entries) == []
  {
    if entries != [] {
      NoUids(entries[..|entries| - 1]);
    }
  }

  function PairOf(e: Entry): seq<Sourced> {
    if e.uid.Some? then [Sourced(e.record, e.uid.value)] else []
  }

  /** The pairs of a sorted aggregate are the pairs of its entries. */
  lemma SortedPairs(marshal: RecordEntry -> string, at: seq<Entry>, i: nat)
    requires at != [] && (forall e :: e in at ==> e.uid.Some?)
    requires i < |SortAggregate(marshal, Aggregate(at[0].ttl, Records(at), Uids(at))).records|
    ensures var a := SortAggregate(marshal, Aggregate(at[0].ttl, Records(at), Uids(at)));
            && |a.uids| == |a.records|
            && exists e :: e in at && e.record == a.records[i] && e.uid == Some(a.uids[i])
  {
    PairedUids(at);
    var zipped := Zip(Records(at), Uids(at));
    var pairs := Sort(SourcedLeq(marshal), zipped);
    SameMembers(pairs, zipped);
    assert pairs[i] in zipped;
    FlatMapMembers(PairOf, at, pairs[i]);
  }

  lemma SortedStaticRecords(marshal: RecordEntry -> string, at: seq<Entry>, i: nat)
    requires at != [] && (forall e :: e in at ==> e.uid.None?)
    requires i < |SortAggregate(marshal, Aggregate(at[0].ttl, Records(at), Uids(at))).records|
    ensures var a := SortAggregate(marshal, Aggregate(at[0].ttl, Records(at), Uids(at)));
            && a.uids == []
            && exists e :: e in at && e.record == a.records[i]
  {
    NoUids(at);
    var records := Records(at);
    SameMembers(Sort(RecordLeq(marshal), records), records);
    assert Sort(RecordLeq(marshal), records)[i] in records;
    FlatMapMembers(RecordOf, at, Sort(RecordLeq(marshal), records)[i]);
  }

  lemma RRSetAt(marshal: RecordEntry -> string, entries: seq<Entry>, s: RRSet)
    requires s in RRSets(marshal, Aggregates(entries))
    ensures var key := Key(s.name, s.rtype);
            && key in Aggregates(entries)
            && s == RRSetOf(marshal, key, Aggregates(entries)[key])
  {
    var i :| 0 <= i < |RRSets(marshal, Aggregates(entries))| && RRSets(marshal, Aggregates(entries))[i] == s;
    RRSetsAt(marshal, Aggregates(entries), i);
  }

  /** An RRset has the TTL of the first entry of its key. */
  lemma RRSetTtlIs(marshal: RecordEntry -> string, entries: seq<Entry>, s: RRSet) returns (e: Entry)
    requires s in RRSets(marshal, Aggregates(entries))
    ensures var at := At(entries, Key(s.name, s.rtype)); at != [] && e == at[0]
    ensures e in entries && e.key == Key(s.name, s.rtype) && e.ttl == s.ttl
  {
    RRSetAt(marshal, entries, s);
    AggregateAt(entries, Key(s.name, s.rtype));
    e := At(entries, Key(s.name, s.rtype))[0];
    assert e in At(entries, Key(s.name, s.rtype));
  }

  lemma RRSetsAt(marshal: RecordEntry -> string, aggregates: map<Key, Aggregate>, i: nat)
    requires i < |RRSets(marshal, aggregates)|
    ensures Linear(KeyLeq) && |RRSets(marshal, aggregates)| == |SortedSet(KeyLeq, aggregates.Keys)|
    ensures var key := SortedSet(KeyLeq, aggregates.Keys)[i];
            key in aggregates && RRSets(marshal, aggregates)[i] == RRSetOf(marshal, key, aggregates[key])
  {
    KeyLinear();
    var keys := SortedSet(KeyLeq, aggregates.Keys);
    assert keys[i] in keys;
  }

  /** Each record of an RRset was entered there, by the contribution listed beside it. */
  lemma RRSetRecords(marshal: RecordEntry -> string, entries: seq<Entry>, s: RRSet, i: nat)
    requires Unmixed(entries) && s in RRSets(marshal, Aggregates(entries)) && i < |s.records|
    ensures if i < |s.uids|
            then exists e :: e in entries && e.key == Key(s.name, s.rtype) && e.record == s.records[i] && e.uid == Some(s.uids[i])
            else exists e :: e in entries && e.key == Key(s.name, s.rtype) && e.record == s.records[i] && e.uid == None
  {
    var key := Key(s.name, s.rtype);
    RRSetAt(marshal, entries, s);
    AggregateAt(entries, key);
    var at := At(entries, key);
    assert forall e :: e in at ==> e in entries && e.key == key;
    assert at[0] in at;
    if at[0].uid.Some? {
      SortedPairs(marshal, at, i);
    } else {
      SortedStaticRecords(marshal, at, i);
    }
  }

  /** Each entry appears in the RRset of its key. */
  lemma EntryPublished(marshal: RecordEntry -> string, entries: seq<Entry>, e: Entry)
    requires e in entries
    ensures exists s :: s in RRSets(marshal, Aggregates(entries)) && s.name == e.key.name && s.rtype == e.key.rtype
  {
    AggregateAt(entries, e.key);
    assert e in At(entries, e.key);
    KeyLinear();
    var aggregates := Aggregates(entries);
    var keys := SortedSet(KeyLeq, aggregates.Keys);
    assert e.key in keys;
    var i :| 0 <= i < |keys| && keys[i] == e.key;
    assert RRSets(marshal, aggregates)[i] in RRSets(marshal, aggregates);
  }

  lemma PairPlace(marshal: RecordEntry -> string, at: seq<Entry>, e: Entry) returns (i: nat)
    requires e in at && (forall x :: x in at ==> x.uid.Some?)
    ensures var a := SortAggregate(marshal, Aggregate(at[0].ttl, Records(at), Uids(at)));
            i < |a.records| == |a.uids| && a.records[i] == e.record && a.uids[i] == e.uid.value
  {
    PairedUids(at);
    var zipped := Zip(Records(at), Uids(at));
    var pairs := Sort(SourcedLeq(marshal), zipped);
    FlatMapMembers(PairOf, at, Sourced(e.record, e.uid.value));
    SameMembers(pairs, zipped);
    i :| 0 <= i < |pairs| && pairs[i] == Sourced(e.record, e.uid.value);
  }

  lemma StaticPlace(marshal: RecordEntry -> string, at: seq<Entry>, e: Entry) returns (i: nat)
    requires e in at && (forall x :: x in at ==> x.uid.None?)
    ensures var a := SortAggregate(marshal, Aggregate(at[0].ttl, Records(at), Uids(at)));
            i < |a.records| && a.uids == [] && a.records[i] == e.record
  {
    NoUids(at);
    var records := Records(at);
    FlatMapMembers(RecordOf, at, e.record);
    SameMembers(Sort(RecordLeq(marshal), records), records);
    i :| 0 <= i < |records| && Sort(RecordLeq(marshal), records)[i] == e.record;
  }

  /** Each entry keeps its place beside its source. */
  lemma EntryRecord(marshal: RecordEntry -> string, entries: seq<Entry>, e: Entry, s: RRSet) returns (i: nat)
    requires Unmixed(entries) && e in entries
    requires s in RRSets(marshal, Aggregates(entries)) && s.name == e.key.name && s.rtype == e.key.rtype
    ensures i < |s.records| && s.records[i] == e.record
    ensures if e.uid.Some? then i < |s.uids| && s.uids[i] == e.uid.value else s.uids == []
  {
    RRSetAt(marshal, entries, s);
    AggregateAt(entries, e.key);
    var at := At(entries, e.key);
    assert e in at && forall x :: x in at ==> x in entries && x.key == e.key;
    if e.uid.Some? {
      i := PairPlace(marshal, at, e);
    } else {
      i := StaticPlace(marshal, at, e);
    }
  }

  // ----- order of entries ---------------------------------------------------

  /** JSON text identifies a record and never holds a raw NUL. */
  ghost predicate Lawful(marshal: RecordEntry -> string) {
    && (forall a, b :: marshal(a) == marshal(b) ==> a == b)
    && (forall a :: '\0' !in marshal(a))
  }

  lemma FirstNul(a: string, x: string)
    requires '\0' !in a
    ensures forall i :: 0 <= i < |a| ==> (a + ['\0'] + x)[i] != '\0'
    ensures (a + ['\0'] + x)[|a|] == '\0'
    ensures (a + ['\0'] + x)[..|a|] == a && (a + ['\0'] + x)[|a| + 1..] == x
  {
    forall i | 0 <= i < |a| ensures (a + ['\0'] + x)[i] != '\0' {
      assert (a + ['\0'] + x)[i] == a[i] && a[i] in a;
    }
  }

  lemma SplitAtNul(a: string, x: string, b: string, y: string)
    requires '\0' !in a && '\0' !in b && a + ['\0'] + x == b + ['\0'] + y
    ensures a == b && x == y
  {
    FirstNul(a, x);
    FirstNul(b, y);
  }

  lemma SourcedOrder(marshal: RecordEntry -> string, s: seq<Sourced>)
    requires Lawful(marshal)
    ensures Ordering(SourcedLeq(marshal)) && Separates(SourcedLeq(marshal), s)
  {
    UidLinear();
    forall x: Sourced, y: Sourced | SourcedLeq(marshal)(x, y) && SourcedLeq(marshal)(y, x) ensures x == y {
      SplitAtNul(marshal(x.record), x.uid, marshal(y.record), y.uid);
    }
  }

  lemma RecordOrder(marshal: RecordEntry -> string, s: seq<RecordEntry>)
    requires Lawful(marshal)
    ensures Ordering(RecordLeq(marshal)) && Separates(RecordLeq(marshal), s)
  {
    UidLinear();
  }

  /** The records of one key agree on their TTL. */
  ghost predicate AgreedTtls(entries: seq<Entry>) {
    forall a, b :: a in entries && b in entries && a.key == b.key ==> a.ttl == b.ttl
  }

  lemma SortAggregatePermutation(marshal: RecordEntry -> string, a: seq<Entry>, b: seq<Entry>)
    requires Lawful(marshal) && multiset(a) == multiset(b) && a != []
    requires (forall e :: e in a ==> e.uid.Some?) || (forall e :: e in a ==> e.uid.None?)
    requires forall x, y :: x in a && y in a ==> x.ttl == y.ttl
    ensures b != []
    ensures SortAggregate(marshal, Aggregate(a[0].ttl, Records(a), Uids(a)))
            == SortAggregate(marshal, Aggregate(b[0].ttl, Records(b), Uids(b)))
  {
    SameMembers(a, b);
    assert b[0] in a && a[0] in a;
    if a[0].uid.Some? {
      PairedUids(a);
      PairedUids(b);
      FlatMapPermutation(PairOf, a, b);
      SourcedOrder(marshal, Zip(Records(a), Uids(a)));
      SortPermutation(SourcedLeq(marshal), Zip(Records(a), Uids(a)), Zip(Records(b), Uids(b)));
    } else {
      NoUids(a);
      NoUids(b);
      FlatMapPermutation(RecordOf, a, b);
      RecordOrder(marshal, Records(a));
      SortPermutation(RecordLeq(marshal), Records(a), Records(b));
    }
  }

  lemma KeyPermutation(marshal: RecordEntry -> string, a: seq<Entry>, b: seq<Entry>, key: Key)
    requires Lawful(marshal) && multiset(a) == multiset(b) && Unmixed(a) && AgreedTtls(a)
    ensures key in Aggregates(a) <==> key in Aggregates(b)
    ensures key in Aggregates(a) ==> RRSetOf(marshal, key, Aggregates(a)[key]) == RRSetOf(marshal, key, Aggregates(b)[key])
  {
    AggregateAt(a, key);
    AggregateAt(b, key);
    FilterPermutation((e: Entry) => e.key == key, a, b);
    SameMembers(At(a, key), At(b, key));
    if At(a, key) != [] {
      assert forall e :: e in At(a, key) ==> e in a && e.key == key;
      assert At(a, key)[0] in At(a, key);
      SortAggregatePermutation(marshal, At(a, key), At(b, key));
    }
  }

  lemma SameRRSets(marshal: RecordEntry -> string, a: map<Key, Aggregate>, b: map<Key, Aggregate>)
    requires a.Keys == b.Keys
    requires forall key :: key in a ==> RRSetOf(marshal, key, a[key]) == RRSetOf(marshal, key, b[key])
    ensures RRSets(marshal, a) == RRSets(marshal, b)
  {
    KeyLinear();
    var keys := SortedSet(KeyLeq, a.Keys);
    forall i | 0 <= i < |keys| ensures RRSets(marshal, a)[i] == RRSets(marshal, b)[i] {
      RRSetsAt(marshal, a, i);
      RRSetsAt(marshal, b, i);
    }
  }

  /** RRsets do not depend on the order records were gathered in. */
  lemma RRSetsPermutation(marshal: RecordEntry -> string, a: seq<Entry>, b: seq<Entry>)
    requires Lawful(marshal) && multiset(a) == multiset(b) && Unmixed(a) && AgreedTtls(a)
    ensures RRSets(marshal, Aggregates(a)) == RRSets(marshal, Aggregates(b))
  {
    forall key
      ensures key in Aggregates(a) <==> key in Aggregates(b)
      ensures key in Aggregates(a) ==> RRSetOf(marshal, key, Aggregates(a)[key]) == RRSetOf(marshal, key, Aggregates(b)[key])
    {
      KeyPermutation(marshal, a, b, key);
    }
    SameRRSets(marshal, Aggregates(a), Aggregates(b));
  }
}
