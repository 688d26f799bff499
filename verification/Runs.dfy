/** Runs of the publication protocol: any interleaving of replicas, crashes, takeovers and collection. */
module Runs {
  import opened Text
  import opened Sources
  import opened Publication

  /**
   * Where one pass over the zone stands. Each carries the copy of the
   * ownership record it last read or wrote and that copy's version.
   */
  datatype Pass =
    | Idle
    | Seen(version: nat, own: Ownership)
    | Held(version: nat, own: Ownership)
    | Drafted(version: nat, own: Ownership, draft: Draft)
    | Reserved(version: nat, own: Ownership, draft: Draft, revision: nat, staged: nat)
    | Staged(version: nat, own: Ownership, draft: Draft, revision: nat, sent: set<Target>)

  datatype Step =
    | Create(identity: string, now: int)
    | Get(pass: nat)
    | Take(pass: nat, identity: string, now: int)
    | Keep(pass: nat, identity: string)
    | Release(pass: nat, identity: string, now: int)
    | Renew(pass: nat, now: int)
    | Compile(pass: nat, input: Input, tombstone: bool, bound: set<Target>)
    | Reserve(pass: nat, now: int)
    | StageChunk(pass: nat)
    | StageManifest(pass: nat)
    | StageOutbox(pass: nat, target: Target)
    | Commit(pass: nat, now: int)
    | Crash(pass: nat)
    | Acknowledge(outbox: OutboxName)
    | CollectChunk(chunk: ChunkName)
    | CollectManifest(id: Id)
    | CollectOutbox(outbox: OutboxName)

  /** A commit: the publication, and what it was compiled from. */
  datatype Commitment = Commitment(id: Id, manifest: Manifest, draft: Draft)

  /**
   * `log` lists the publications the active pointer has named, `reservations`
   * the revisions taken and `acked` every delivery ever acknowledged.
   */
  datatype System = System(
    store: Store, passes: map<nat, Pass>, log: seq<Commitment>, reservations: seq<nat>, acked: set<OutboxName>)

  const START := System(Store(0, None, map[], map[], map[]), map[], [], [], {})

  function At(s: System, t: nat): Pass {
    if t in s.passes then s.passes[t] else Idle
  }

  function Put(s: System, t: nat, p: Pass): System {
    s.(passes := s.passes[t := p])
  }

  /** The patch of the copy held by pass `t` went through; the pass continues as `next`, else it ends. */
  function Patched(s: System, t: nat, version: nat, own: Ownership, next: Pass): System {
    if s.store.owner.Some? && version == s.store.version
    then Put(s.(store := Publication.Patch(s.store, version, own)), t, next)
    else Put(s, t, Idle)
  }

  predicate Newer(a: Id, b: Id) {
    a.epoch > b.epoch || (a.epoch == b.epoch && a.revision > b.revision)
  }

  /** Collection only touches publications that a committed one has overtaken. */
  predicate Overtaken(s: System, id: Id) {
    exists i | 0 <= i < |s.log| :: Newer(s.log[i].id, id)
  }

  function AfterReserve(w: World, s: System, t: nat, p: Pass, now: int): System
    requires p.Drafted?
  {
    var own := ReservedBy(w, p.own, now);
    var after := Patched(s, t, p.version, own, Reserved(p.version + 1, own, p.draft, Reservation(p.own), 0));
    if At(after, t).Reserved? then after.(reservations := s.reservations + [Reservation(p.own)]) else after
  }

  function AfterStageChunk(w: World, s: System, t: nat, p: Pass): System
    requires p.Reserved? && p.staged < |Parts(w, p.draft)|
  {
    var id := Id(p.own.epoch, p.revision);
    match CreateChunk(s.store, ChunkName(id, p.staged), ChunkOf(w, id, Parts(w, p.draft)[p.staged], p.staged))
    case None => Put(s, t, Idle)
    case Some(store) => Put(s.(store := store), t, p.(staged := p.staged + 1))
  }

  function AfterStageManifest(w: World, s: System, t: nat, p: Pass): System
    requires p.Reserved?
  {
    match CreateManifest(s.store, ManifestOf(w, Id(p.own.epoch, p.revision), p.draft))
    case None => Put(s, t, Idle)
    case Some(store) => Put(s.(store := store), t, Staged(p.version, p.own, p.draft, p.revision, {}))
  }

  function AfterCommit(w: World, s: System, t: nat, p: Pass, now: int): System
    requires p.Staged?
  {
    var id := Id(p.own.epoch, p.revision);
    var after := Patched(s, t, p.version, CommittedBy(w, p.own, id, p.draft, now), Idle);
    if after.store == s.store then after
    else after.(log := s.log + [Commitment(id, ManifestOf(w, id, p.draft), p.draft)])
  }

  /** One atomic exchange; a step that is not enabled changes nothing. */
  function Next(w: World, s: System, step: Step): System {
    match step
    case Create(identity, now) => s.(store := CreateOwner(w, s.store, identity, now))
    case Get(t) => if s.store.owner.Some? then Put(s, t, Seen(s.store.version, s.store.owner.value)) else Put(s, t, Idle)
    case Take(t, identity, now) =>
      (match At(s, t)
       case Seen(version, own) =>
         if !MayTake(own, identity, now) then s
         else Patched(s, t, version, Taken(w, own, identity, now), Held(version + 1, Taken(w, own, identity, now)))
       case _ => s)
    case Keep(t, identity) =>
      (match At(s, t)
       case Seen(version, own) => if own.holder == identity then Put(s, t, Held(version, own)) else s
       case _ => s)
    case Release(t, identity, now) =>
      (match At(s, t)
       case Seen(version, own) =>
         if own.holder == identity && own.lease > now then Patched(s, t, version, own.(lease := now), Idle) else s
       case _ => s)
    case Renew(t, now) =>
      (match At(s, t)
       case Held(version, own) => Patched(s, t, version, Renewed(w, own, now), Held(version + 1, Renewed(w, own, now)))
       case _ => s)
    case Compile(t, input, tombstone, bound) =>
      (match At(s, t)
       case Held(version, own) =>
         (match Publication.Prepare(w, s.store, own, input, tombstone, bound)
          case None => Put(s, t, Idle)
          case Some(d) => Put(s, t, Drafted(version, own, d)))
       case _ => s)
    case Reserve(t, now) => if At(s, t).Drafted? then AfterReserve(w, s, t, At(s, t), now) else s
    case StageChunk(t) =>
      var p := At(s, t);
      if p.Reserved? && p.staged < |Parts(w, p.draft)| then AfterStageChunk(w, s, t, p) else s
    case StageManifest(t) =>
      var p := At(s, t);
      if p.Reserved? && p.staged == |Parts(w, p.draft)| then AfterStageManifest(w, s, t, p) else s
    case StageOutbox(t, v) =>
      (match At(s, t)
       case Staged(version, own, draft, revision, sent) =>
         if v in draft.serving + draft.withdrawn
         then Put(s.(store := CreateOutbox(s.store, OutboxName(Id(own.epoch, revision), v))), t,
                  Staged(version, own, draft, revision, sent + {v}))
         else s
       case _ => s)
    case Commit(t, now) =>
      var p := At(s, t);
      if p.Staged? && p.sent == p.draft.serving + p.draft.withdrawn then AfterCommit(w, s, t, p, now) else s
    case Crash(t) => Put(s, t, Idle)
    case Acknowledge(o) =>
      if o in s.store.outboxes
      then s.(store := s.store.(outboxes := s.store.outboxes[o := true]), acked := s.acked + {o})
      else s
    case CollectChunk(c) =>
      if Overtaken(s, c.id) then s.(store := s.store.(chunks := s.store.chunks - {c})) else s
    case CollectManifest(id) =>
      if Overtaken(s, id) then s.(store := s.store.(manifests := s.store.manifests - {id})) else s
    case CollectOutbox(o) =>
      if Overtaken(s, o.id) then s.(store := s.store.(outboxes := s.store.outboxes - {o})) else s
  }

  /** The system after a run. */
  function After(w: World, steps: seq<Step>): System {
    if steps == [] then START else Next(w, After(w, steps[..|steps| - 1]), steps[|steps| - 1])
  }

  // ----- the invariant ------------------------------------------------------

  /** The revision a pass has reserved. */
  predicate HasReserved(p: Pass) {
    p.Reserved? || p.Staged?
  }

  /** A copy is never ahead of the record, and one that carries the current version is the record. */
  predicate CopyHolds(store: Store, p: Pass) {
    !p.Idle? ==>
      && store.owner.Some?
      && p.version <= store.version
      && (p.version == store.version ==> p.own == store.owner.value)
      && (HasReserved(p) ==> 1 <= p.revision < store.owner.value.next)
  }

  /** Nothing is committed or reserved beyond the record. */
  ghost predicate Bounded(w: World, s: System) {
    if s.store.owner.None? then s.log == [] && s.reservations == []
    else
      var own := s.store.owner.value;
      && own.zone == w.zone && 1 <= own.epoch && 1 <= own.next
      && (forall i :: 0 <= i < |s.log| ==> s.log[i].id.epoch <= own.epoch && 1 <= s.log[i].id.revision < own.next)
      && (forall i :: 0 <= i < |s.reservations| ==> s.reservations[i] < own.next)
      && own.active == if s.log == [] then None else Some(s.log[|s.log| - 1].id)
  }

  /** While nobody else has written the record, a reservation is ahead of every commit. */
  ghost predicate Ahead(s: System, p: Pass) {
    HasReserved(p) && p.version == s.store.version ==>
      forall i :: 0 <= i < |s.log| ==> s.log[i].id.epoch <= p.own.epoch && s.log[i].id.revision < p.revision
  }

  /** Each revision is reserved once, in increasing order. */
  ghost predicate ReservedOnce(s: System) {
    forall i, j :: 0 <= i < j < |s.reservations| ==> s.reservations[i] < s.reservations[j]
  }

  /** Along the active pointer the epoch never falls and the revision rises. */
  ghost predicate LogRises(s: System) {
    forall i, j :: 0 <= i < j < |s.log| ==>
      s.log[i].id.epoch <= s.log[j].id.epoch && s.log[i].id.revision < s.log[j].id.revision
  }

  ghost predicate Protocol(w: World, s: System) {
    && Bounded(w, s)
    && (forall t :: CopyHolds(s.store, At(s, t)))
    && (forall t :: Ahead(s, At(s, t)))
    && ReservedOnce(s)
    && LogRises(s)
  }
}
