/**
 * Publishing compiled zones: replicas compete for one ownership record per
 * zone, reserve a revision by compare-and-swap, stage immutable artifacts and
 * move the active pointer with a second compare-and-swap.
 *
 * Every function here is one atomic exchange between a replica and the API.
 * A replica keeps its own copy of the ownership record between exchanges, so
 * copies may be stale, and a crash may come between any two of them.
 */
module Publication {
  import opened Text
  import opened Sources
  import opened Wire

  type Bytes = seq<bv8>

  type Size = n: nat | 0 < n witness 1

  /** The name of a publication: one per writer epoch and revision. */
  datatype Id = Id(epoch: nat, revision: nat)

  datatype Target = Target(region: string, shard: string)

  datatype ChunkRef = ChunkRef(index: nat, sum: string, size: nat)

  datatype ChunkName = ChunkName(id: Id, index: nat)

  datatype Chunk = Chunk(id: Id, index: nat, sum: string, payload: Bytes)

  datatype OutboxName = OutboxName(id: Id, target: Target)

  datatype Manifest = Manifest(
    zone: UID, id: Id, previousRevision: nat, tombstone: bool, chunks: seq<ChunkRef>, contentHash: string,
    serving: set<Target>, withdrawn: set<Target>, expected: set<string>, tracked: bool)

  datatype Ownership = Ownership(
    zone: UID, holder: string, epoch: nat, next: nat, lease: int, active: Option<Id>, lastHash: string)

  /** `version` is the resource version of the ownership record. */
  datatype Store = Store(
    version: nat, owner: Option<Ownership>, manifests: map<Id, Manifest>, chunks: map<ChunkName, Chunk>,
    outboxes: map<OutboxName, bool>)

  /**
   * What does not change during a run: the zone, the serialisation, the
   * compiler and the serving configuration. `compile` is None on any error.
   */
  datatype World = World(
    zone: UID, compile: (Option<WirePlan>, Input) -> Option<WirePlan>,
    encode: WirePlan -> Bytes, decode: Bytes -> Option<WirePlan>, hash: Bytes -> string,
    stateHash: (Bytes, set<Target>, set<string>) -> string,
    chunkSize: Size, leaseDuration: nat, regional: bool, configured: set<Target>, localRegions: set<string>)

  /** JSON round-trips a wire plan, and no JSON text is empty. */
  ghost predicate Sound(w: World) {
    && (forall p :: w.decode(w.encode(p)) == Some(p))
    && (forall p :: w.encode(p) != [])
  }

  // ----- chunks -------------------------------------------------------------

  function Chunks(b: Bytes, size: Size): seq<Bytes>
    decreases |b|
  {
    if b == [] then []
    else if |b| <= size then [b]
    else [b[..size]] + Chunks(b[size..], size)
  }

  function Joined(parts: seq<Bytes>): Bytes {
    if parts == [] then [] else Joined(parts[..|parts| - 1]) + parts[|parts| - 1]
  }

  function RefOf(w: World, p: Bytes, i: nat): ChunkRef {
    ChunkRef(i, w.hash(p), |p|)
  }

  function Refs(w: World, parts: seq<Bytes>): (refs: seq<ChunkRef>) {
    seq(|parts|, i requires 0 <= i < |parts| => RefOf(w, parts[i], i))
  }

  function ChunkOf(w: World, id: Id, p: Bytes, i: nat): Chunk {
    Chunk(id, i, w.hash(p), p)
  }

  // ----- the active publication ---------------------------------------------

  datatype Loaded = Loaded(plan: Option<WirePlan>) | LoadFailed

  predicate ChunkVerified(w: World, id: Id, ref: ChunkRef, i: nat, c: Chunk) {
    c.index == i && c.id == id && c.sum == ref.sum && w.hash(c.payload) == ref.sum && |c.payload| == ref.size
  }

  /** The verified payload of the first `n` chunks. */
  function Payload(w: World, store: Store, m: Manifest, n: nat): Option<Bytes>
    requires n <= |m.chunks|
  {
    if n == 0 then Some([])
    else
      var before := Payload(w, store, m, n - 1);
      var name := ChunkName(m.id, n - 1);
      if before.None? || name !in store.chunks || !ChunkVerified(w, m.id, m.chunks[n - 1], n - 1, store.chunks[name])
      then None
      else Some(before.value + store.chunks[name].payload)
  }

  function LoadManifest(w: World, store: Store, m: Manifest): Loaded {
    match Payload(w, store, m, |m.chunks|)
    case None => LoadFailed
    case Some(b) =>
      if w.hash(b) != m.contentHash then LoadFailed
      else if b == [] then (if m.tombstone then Loaded(None) else LoadFailed)
      else match w.decode(b)
        case None => LoadFailed
        case Some(p) => Loaded(Some(p))
  }

  function LoadPrevious(w: World, store: Store, own: Ownership): Loaded {
    match own.active
    case None => Loaded(None)
    case Some(id) => if id !in store.manifests then LoadFailed else LoadManifest(w, store, store.manifests[id])
  }

  /** The revision of the active publication when this epoch wrote it, else 0; None on a fence mismatch. */
  function ActiveRevision(store: Store, own: Ownership): Option<nat> {
    match own.active
    case None => Some(0)
    case Some(id) =>
      if id !in store.manifests then None
      else
        var m := store.manifests[id];
        if m.zone != own.zone || m.id.epoch > own.epoch then None
        else if m.id.epoch < own.epoch then Some(0)
        else Some(m.id.revision)
  }

  // ----- targets ------------------------------------------------------------

  predicate Local(w: World, v: Target) {
    !w.regional || v.region in w.localRegions
  }

  predicate Withdrawable(w: World, v: Target) {
    v in w.configured && Local(w, v)
  }

  predicate Delivered(store: Store, id: Id, v: Target) {
    OutboxName(id, v) in store.outboxes && store.outboxes[OutboxName(id, v)]
  }

  function Desired(previous: Option<Manifest>, bound: set<Target>, tombstone: bool): set<Target> {
    (if tombstone then {} else bound) + (if tombstone && previous.Some? then previous.value.serving else {})
  }

  function PriorWithdrawn(w: World, m: Manifest): set<Target> {
    m.withdrawn + if m.tracked then {} else w.configured
  }

  /** The shards that must be told to drop the zone. */
  function Withdrawals(w: World, store: Store, previous: Option<Manifest>, desired: set<Target>, tombstone: bool): set<Target> {
    match previous
    case None => {}
    case Some(m) =>
      (set v | v in m.serving && !tombstone && v !in desired && Withdrawable(w, v))
      + (set v | v in PriorWithdrawn(w, m) && v !in desired && Withdrawable(w, v) && !Delivered(store, m.id, v))
  }

  function ServingOf(w: World, desired: set<Target>): set<Target> {
    set v | v in desired && Local(w, v)
  }

  function RegionsOf(targets: set<Target>): set<string> {
    set v | v in targets :: v.region
  }

  function ExpectedOf(w: World, previous: Option<Manifest>, desired: set<Target>, tombstone: bool): set<string> {
    if !w.regional then {}
    else RegionsOf(desired) + if tombstone && previous.Some? then previous.value.expected else {}
  }

  // ----- drafting a revision ------------------------------------------------

  /** A compiled revision before it has a number. `previous` and `input` are what it was compiled from. */
  datatype Draft = Draft(
    previous: Option<WirePlan>, input: Input, tombstone: bool, plan: Option<WirePlan>, payload: Bytes,
    serving: set<Target>, withdrawn: set<Target>, expected: set<string>, previousRevision: nat, stateHash: string)

  /** A tombstone has an empty payload; otherwise the plan compiled from `previous`. */
  function Compose(w: World, previous: Option<WirePlan>, input: Input, tombstone: bool): Option<(Option<WirePlan>, Bytes)> {
    if tombstone then Some((None, []))
    else
      match w.compile(previous, input)
      case None => None
      case Some(p) => Some((Some(p), w.encode(p)))
  }

  /** Everything compileZone does up to the reservation; None when it stops there. */
  function Prepare(w: World, store: Store, own: Ownership, input: Input, tombstone: bool, bound: set<Target>): Option<Draft> {
    var loaded := LoadPrevious(w, store, own);
    if loaded.LoadFailed? then None
    else
      var composed := Compose(w, loaded.plan, input, tombstone);
      var revision := ActiveRevision(store, own);
      if composed.None? || revision.None? then None
      else
        var previous := if own.active.Some? && own.active.value in store.manifests
                        then Some(store.manifests[own.active.value]) else None;
        var desired := Desired(previous, bound, tombstone);
        var serving := ServingOf(w, desired);
        var expected := ExpectedOf(w, previous, desired, tombstone);
        var state := if tombstone then w.hash([]) else w.stateHash(composed.value.1, serving, expected);
        if w.regional && serving == {} && own.active.None? then None
        else if revision.value > 0 && own.lastHash == state then None
        else Some(Draft(loaded.plan, input, tombstone, composed.value.0, composed.value.1, serving,
                        Withdrawals(w, store, previous, desired, tombstone), expected, revision.value, state))
  }

  function Parts(w: World, d: Draft): seq<Bytes> {
    Chunks(d.payload, w.chunkSize)
  }

  function ManifestOf(w: World, id: Id, d: Draft): Manifest {
    Manifest(w.zone, id, d.previousRevision, d.tombstone, Refs(w, Parts(w, d)), w.hash(d.payload),
             d.serving, d.withdrawn, d.expected, true)
  }

  // ----- the ownership record -----------------------------------------------

  /** A new writer outranks the stored epoch and every clock up to its own. */
  function NextWriterEpoch(stored: nat, now: int): (epoch: nat)
    ensures epoch > stored && epoch >= now
    ensures epoch == stored + 1 || epoch == now
  {
    var clock := if now < 0 then 0 else now;
    if stored + 1 > clock then stored + 1 else clock
  }

  /** A patch that names the resource version it was made from; it changes nothing when that is not current. */
  function Patch(store: Store, version: nat, own: Ownership): Store {
    if store.owner.Some? && version == store.version then store.(version := version + 1, owner := Some(own)) else store
  }

  function NewOwnership(w: World, identity: string, now: int): Ownership {
    Ownership(w.zone, identity, NextWriterEpoch(0, now), 1, now + w.leaseDuration, None, "")
  }

  function CreateOwner(w: World, store: Store, identity: string, now: int): Store {
    if store.owner.Some? then store
    else store.(version := store.version + 1, owner := Some(NewOwnership(w, identity, now)))
  }

  predicate MayTake(own: Ownership, identity: string, now: int) {
    own.holder != identity && own.lease <= now
  }

  function Taken(w: World, own: Ownership, identity: string, now: int): Ownership {
    own.(holder := identity, epoch := NextWriterEpoch(own.epoch, now), lease := now + w.leaseDuration)
  }

  function Renewed(w: World, own: Ownership, now: int): Ownership {
    own.(lease := now + w.leaseDuration)
  }

  /** The revision a reservation takes. */
  function Reservation(own: Ownership): nat {
    if own.next == 0 then 1 else own.next
  }

  function ReservedBy(w: World, own: Ownership, now: int): Ownership {
    own.(next := Reservation(own) + 1, lease := now + w.leaseDuration)
  }

  function CommittedBy(w: World, own: Ownership, id: Id, d: Draft, now: int): Ownership {
    own.(lastHash := d.stateHash, active := Some(id), lease := now + w.leaseDuration)
  }

  /** The record's validation rules on an update. */
  predicate TransitionAllowed(before: Ownership, after: Ownership) {
    && after.zone == before.zone
    && after.epoch >= before.epoch && after.next >= before.next
    && (after.holder == before.holder || after.epoch > before.epoch)
  }

  // ----- immutable artifacts ------------------------------------------------

  /** None when an artifact of this name exists with other content. */
  function CreateChunk(store: Store, name: ChunkName, c: Chunk): Option<Store> {
    if name !in store.chunks then Some(store.(chunks := store.chunks[name := c]))
    else if store.chunks[name] == c then Some(store) else None
  }

  function CreateManifest(store: Store, m: Manifest): Option<Store> {
    if m.id !in store.manifests then Some(store.(manifests := store.manifests[m.id := m]))
    else if store.manifests[m.id] == m then Some(store) else None
  }

  function CreateOutbox(store: Store, name: OutboxName): Store {
    if name in store.outboxes then store else store.(outboxes := store.outboxes[name := false])
  }
}
