/** A replica at work: the loops and updates behind the steps of a run. */
module Replica {
  import opened Text
  import opened Publication
  import opened Runs

  // ----- chunks -------------------------------------------------------------

  lemma ChunksNext(out: seq<Bytes>, b: Bytes, size: Size)
    requires b != []
    ensures var n := if size > |b| then |b| else size;
            out + Chunks(b, size) == out + [b[..n]] + Chunks(b[n..], size)
  {
    var n := if size > |b| then |b| else size;
    if |b| <= size {
      assert b[..n] == b && b[n..] == [];
    }
  }

  method SplitChunks(payload: Bytes, size: Size) returns (out: seq<Bytes>)
    ensures out == Chunks(payload, size)
  {
    out := [];
    var b := payload;
    while |b| > 0
      invariant out + Chunks(b, size) == Chunks(payload, size)
      decreases |b|
    {
      var n := if size > |b| then |b| else size;
      ChunksNext(out, b, size);
      out, b := out + [b[..n]], b[n..];
    }
    assert out + [] == out;
  }

  /** Reads the chunks of a manifest in order, verifying each. */
  method ReadPayload(w: World, store: Store, m: Manifest) returns (b: Option<Bytes>)
    ensures b == Payload(w, store, m, |m.chunks|)
  {
    var read: Bytes := [];
    for i := 0 to |m.chunks|
      invariant Payload(w, store, m, i) == Some(read)
    {
      var name := ChunkName(m.id, i);
      if name !in store.chunks || !ChunkVerified(w, m.id, m.chunks[i], i, store.chunks[name]) {
        PayloadFails(w, store, m, i + 1, |m.chunks|);
        return None;
      }
      read := read + store.chunks[name].payload;
    }
    return Some(read);
  }

  lemma {:induction false} PayloadFails(w: World, store: Store, m: Manifest, i: nat, n: nat)
    requires i <= n <= |m.chunks| && Payload(w, store, m, i).None?
    ensures Payload(w, store, m, n).None?
  {
    if i < n {
      PayloadFails(w, store, m, i, n - 1);
    }
  }

  /** The shards to tell to drop the zone: earlier serving ones first, then those still waiting. */
  method CollectWithdrawals(w: World, store: Store, m: Manifest, desired: set<Target>, tombstone: bool) returns (withdrawn: set<Target>)
    ensures withdrawn == Withdrawals(w, store, Some(m), desired, tombstone)
  {
    withdrawn := {};
    var rest := m.serving;
    while rest != {}
      invariant rest <= m.serving
      invariant withdrawn == set v | v in m.serving - rest && !tombstone && v !in desired && Withdrawable(w, v)
    {
      var v :| v in rest;
      rest := rest - {v};
      if !tombstone && v !in desired && Withdrawable(w, v) {
        withdrawn := withdrawn + {v};
      }
    }
    ghost var served := withdrawn;
    var prior := PriorWithdrawn(w, m);
    rest := prior;
    while rest != {}
      invariant rest <= prior
      invariant withdrawn == served + set v | v in prior - rest && v !in desired && Withdrawable(w, v) && !Delivered(store, m.id, v)
    {
      var v :| v in rest;
      rest := rest - {v};
      if v !in desired && Withdrawable(w, v) && v !in withdrawn && !Delivered(store, m.id, v) {
        withdrawn := withdrawn + {v};
      }
    }
  }

  // ----- the exchanges ------------------------------------------------------

  /** The publication store. */
  class Api {
    var store: Store

    constructor (s: Store)
      ensures store == s
    {
      store := s;
    }

    /** A patch under optimistic lock. */
    method PatchOwner(version: nat, own: Ownership) returns (ok: bool)
      modifies this
      ensures ok == (old(store).owner.Some? && version == old(store).version)
      ensures store == Publication.Patch(old(store), version, own)
    {
      ok := store.owner.Some? && version == store.version;
      if ok {
        store := store.(version := store.version + 1, owner := Some(own));
      }
    }
  }

  /** One pass over the zone by one process. */
  class Worker {
    const w: World
    const api: Api
    const identity: string
    var pass: Pass

    constructor (world: World, a: Api, i: string)
      ensures w == world && api == a && identity == i && pass == Idle
    {
      w, api, identity, pass := world, a, i, Idle;
    }

    /** The run this object takes part in: its own pass is number `t`. */
    ghost predicate In(s: System, t: nat)
      reads this, api
    {
      s.store == api.store && At(s, t) == pass
    }

    /** acquireOwnership up to the read, which creates a missing record and stops. */
    method Acquire(now: int, ghost s: System, ghost t: nat)
      requires In(s, t)
      modifies this, api
      ensures old(api.store.owner).None? ==> In(Next(w, Next(w, s, Get(t)), Create(identity, now)), t)
      ensures old(api.store.owner).Some? ==> In(Next(w, s, Get(t)), t)
    {
      if api.store.owner.None? {
        api.store := api.store.(version := api.store.version + 1, owner := Some(NewOwnership(w, identity, now)));
        pass := Idle;
        return;
      }
      pass := Seen(api.store.version, api.store.owner.value);
    }

    /** acquireOwnership after the read: keep a held record, or take over an expired one under a new epoch. */
    method Hold(now: int, ghost s: System, ghost t: nat)
      requires In(s, t) && pass.Seen?
      modifies this, api
      ensures old(pass).own.holder == identity ==> In(Next(w, s, Keep(t, identity)), t)
      ensures old(pass).own.holder != identity ==> In(Next(w, s, Take(t, identity, now)), t)
    {
      var own, version := pass.own, pass.version;
      if own.holder == identity {
        pass := Held(version, own);
        return;
      }
      if own.lease > now {
        return;
      }
      own := own.(holder := identity, epoch := NextWriterEpoch(own.epoch, now), lease := now + w.leaseDuration);
      var ok := api.PatchOwner(version, own);
      pass := if ok then Held(version + 1, own) else Idle;
    }

    /** Reserves the next revision before anything is staged under it. */
    method Reserve(now: int, ghost s: System, ghost t: nat)
      requires In(s, t) && pass.Drafted?
      modifies this, api
      ensures In(Next(w, s, Step.Reserve(t, now)), t)
    {
      var own, version, draft := pass.own, pass.version, pass.draft;
      var revision := own.next;
      if revision <= 0 {
        revision := 1;
      }
      own := own.(next := revision + 1, lease := now + w.leaseDuration);
      var ok := api.PatchOwner(version, own);
      pass := if ok then Reserved(version + 1, own, draft, revision, 0) else Idle;
    }

    /** One chunk of persistPublication, created once and never overwritten. */
    method StageChunk(parts: seq<Bytes>, ghost s: System, ghost t: nat)
      requires In(s, t) && pass.Reserved? && parts == Parts(w, pass.draft) && pass.staged < |parts|
      modifies this, api
      ensures In(Next(w, s, Step.StageChunk(t)), t)
    {
      var id := Id(pass.own.epoch, pass.revision);
      var name, c := ChunkName(id, pass.staged), ChunkOf(w, id, parts[pass.staged], pass.staged);
      if name !in api.store.chunks {
        api.store := api.store.(chunks := api.store.chunks[name := c]);
      } else if api.store.chunks[name] != c {
        pass := Idle;
        return;
      }
      pass := pass.(staged := pass.staged + 1);
    }

    method StageManifest(parts: seq<Bytes>, ghost s: System, ghost t: nat)
      requires In(s, t) && pass.Reserved? && parts == Parts(w, pass.draft) && pass.staged == |parts|
      modifies this, api
      ensures In(Next(w, s, Step.StageManifest(t)), t)
    {
      var m := ManifestOf(w, Id(pass.own.epoch, pass.revision), pass.draft);
      if m.id !in api.store.manifests {
        api.store := api.store.(manifests := api.store.manifests[m.id := m]);
      } else if api.store.manifests[m.id] != m {
        pass := Idle;
        return;
      }
      pass := Staged(pass.version, pass.own, pass.draft, pass.revision, {});
    }

    /** Moves the active pointer. */
    method Commit(now: int, ghost s: System, ghost t: nat)
      requires In(s, t) && pass.Staged? && pass.sent == pass.draft.serving + pass.draft.withdrawn
      modifies this, api
      ensures In(Next(w, s, Step.Commit(t, now)), t)
    {
      var own, version, id := pass.own, pass.version, Id(pass.own.epoch, pass.revision);
      own := own.(lastHash := pass.draft.stateHash, active := Some(id), lease := now + w.leaseDuration);
      var ok := api.PatchOwner(version, own);
      pass := Idle;
    }
  }
}
