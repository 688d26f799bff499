/** What every run of the publication protocol keeps. */
module RunProofs {
  import opened Text
  import opened Publication
  import opened Runs

  lemma LogOnlyGrows(w: World, s: System, step: Step)
    ensures s.log <= Next(w, s, step).log
  {
  }

  // ----- the shapes of a step -----------------------------------------------

  ghost predicate OthersKept(s: System, after: System, t: nat) {
    forall u :: u != t ==> At(after, u) == At(s, u)
  }

  /** The pass goes on with the copy it has, reads a fresh one, or ends. */
  predicate CarriesOn(store: Store, p: Pass, q: Pass) {
    || q.Idle?
    || (q.Seen? && store.owner == Some(q.own) && q.version == store.version)
    || (!p.Idle? && q.version == p.version && q.own == p.own
        && (HasReserved(q) ==> HasReserved(p) && q.revision == p.revision))
  }

  /** The ownership record, the log and the reservations stay as they are. */
  ghost predicate Quiet(s: System, after: System, t: nat) {
    && after.store.owner == s.store.owner && after.store.version == s.store.version
    && after.log == s.log && after.reservations == s.reservations
    && OthersKept(s, after, t)
    && CarriesOn(s.store, At(s, t), At(after, t))
  }

  /** Pass `t` replaced the record it had a current copy of with `own`. */
  ghost predicate Wrote(s: System, after: System, t: nat, own: Ownership) {
    && s.store.owner.Some? && !At(s, t).Idle? && At(s, t).version == s.store.version
    && after.store.owner == Some(own) && after.store.version == s.store.version + 1
    && OthersKept(s, after, t)
    && (!At(after, t).Idle? ==> At(after, t).version == s.store.version + 1 && At(after, t).own == own)
  }

  ghost predicate WroteLease(s: System, after: System, t: nat, own: Ownership) {
    && Wrote(s, after, t, own)
    && own == At(s, t).own.(holder := own.holder, epoch := own.epoch, lease := own.lease)
    && own.epoch >= At(s, t).own.epoch
    && (own.holder == At(s, t).own.holder || own.epoch > At(s, t).own.epoch)
    && after.log == s.log && after.reservations == s.reservations
    && !HasReserved(At(after, t))
  }

  ghost predicate WroteReservation(s: System, after: System, t: nat, own: Ownership) {
    && Wrote(s, after, t, own)
    && At(s, t).Drafted?
    && own == At(s, t).own.(next := own.next, lease := own.lease)
    && own.next == Reservation(At(s, t).own) + 1
    && after.log == s.log && after.reservations == s.reservations + [Reservation(At(s, t).own)]
    && At(after, t).Reserved? && At(after, t).revision == Reservation(At(s, t).own)
    && At(after, t).draft == At(s, t).draft && At(after, t).staged == 0
  }

  ghost predicate WroteCommit(w: World, s: System, after: System, t: nat, own: Ownership) {
    && Wrote(s, after, t, own)
    && At(s, t).Staged?
    && var id := Id(At(s, t).own.epoch, At(s, t).revision);
    && own == At(s, t).own.(active := Some(id), lastHash := own.lastHash, lease := own.lease)
    && after.log == s.log + [Commitment(id, ManifestOf(w, id, At(s, t).draft), At(s, t).draft)]
    && after.reservations == s.reservations
    && At(after, t).Idle?
  }

  ghost predicate Created(w: World, s: System, after: System) {
    && s.store.owner.None?
    && after.store.owner.Some? && after.store.version == s.store.version + 1
    && after.log == s.log && after.reservations == s.reservations && after.passes == s.passes
    && var own := after.store.owner.value;
    && own.zone == w.zone && own.epoch >= 1 && own.next == 1 && own.active == None
  }

  lemma LeaseShape(w: World, s: System, step: Step)
    requires (step.Take? || step.Release? || step.Renew?)
    ensures var after := Next(w, s, step);
            Quiet(s, after, step.pass) || (after.store.owner.Some? && WroteLease(s, after, step.pass, after.store.owner.value))
  {
  }

  lemma ReserveShape(w: World, s: System, step: Step)
    requires step.Reserve?
    ensures var after := Next(w, s, step);
            Quiet(s, after, step.pass) || (after.store.owner.Some? && WroteReservation(s, after, step.pass, after.store.owner.value))
  {
  }

  lemma CommitShape(w: World, s: System, step: Step)
    requires step.Commit?
    ensures var after := Next(w, s, step);
            Quiet(s, after, step.pass) || (after.store.owner.Some? && WroteCommit(w, s, after, step.pass, after.store.owner.value))
  {
  }

  lemma StagingShape(w: World, s: System, step: Step)
    requires (step.StageChunk? || step.StageManifest? || step.StageOutbox?)
    ensures Quiet(s, Next(w, s, step), step.pass)
  {
  }

  lemma LocalShape(w: World, s: System, step: Step)
    requires (step.Get? || step.Keep? || step.Compile? || step.Crash?)
    ensures Quiet(s, Next(w, s, step), step.pass)
  {
  }

  lemma OutsideShape(w: World, s: System, step: Step)
    requires (step.Acknowledge? || step.CollectChunk? || step.CollectManifest? || step.CollectOutbox?)
    ensures Quiet(s, Next(w, s, step), 0)
  {
  }

  // ----- the invariant over each shape --------------------------------------

  lemma QuietKeeps(w: World, s: System, after: System, t: nat)
    requires Protocol(w, s) && Quiet(s, after, t)
    ensures Protocol(w, after)
  {
    forall u ensures CopyHolds(after.store, At(after, u)) && Ahead(after, At(after, u)) {
      assert CopyHolds(s.store, At(s, u)) && Ahead(s, At(s, u));
      assert u != t ==> At(after, u) == At(s, u);
    }
  }

  lemma OthersBehind(w: World, s: System, after: System, t: nat, own: Ownership, u: nat)
    requires Protocol(w, s) && Wrote(s, after, t, own) && u != t && own.next >= At(s, t).own.next
    ensures CopyHolds(after.store, At(after, u)) && Ahead(after, At(after, u))
  {
    assert CopyHolds(s.store, At(s, t)) && CopyHolds(s.store, At(s, u));
    assert At(after, u) == At(s, u);
  }

  lemma LeaseKeeps(w: World, s: System, after: System, t: nat, own: Ownership)
    requires Protocol(w, s) && WroteLease(s, after, t, own)
    ensures Protocol(w, after)
  {
    assert CopyHolds(s.store, At(s, t));
    forall u ensures CopyHolds(after.store, At(after, u)) && Ahead(after, At(after, u)) {
      if u != t { OthersBehind(w, s, after, t, own, u); }
    }
  }

  lemma ReservationKeeps(w: World, s: System, after: System, t: nat, own: Ownership)
    requires Protocol(w, s) && WroteReservation(s, after, t, own)
    ensures Protocol(w, after)
  {
    assert CopyHolds(s.store, At(s, t));
    forall u ensures CopyHolds(after.store, At(after, u)) && Ahead(after, At(after, u)) {
      if u != t { OthersBehind(w, s, after, t, own, u); }
    }
  }

  lemma CommitKeeps(w: World, s: System, after: System, t: nat, own: Ownership)
    requires Protocol(w, s) && WroteCommit(w, s, after, t, own)
    ensures Protocol(w, after)
  {
    assert CopyHolds(s.store, At(s, t)) && Ahead(s, At(s, t));
    forall u ensures CopyHolds(after.store, At(after, u)) && Ahead(after, At(after, u)) {
      if u != t { OthersBehind(w, s, after, t, own, u); }
    }
  }

  lemma CreateKeeps(w: World, s: System, after: System)
    requires Protocol(w, s) && Created(w, s, after)
    ensures Protocol(w, after)
  {
    forall u ensures CopyHolds(after.store, At(after, u)) && Ahead(after, At(after, u)) {
      assert CopyHolds(s.store, At(s, u));
    }
  }

  lemma ProtocolNext(w: World, s: System, step: Step)
    requires Protocol(w, s)
    ensures Protocol(w, Next(w, s, step))
  {
    var after := Next(w, s, step);
    if step.Create? {
      if s.store.owner.None? { CreateKeeps(w, s, after); }
    } else if step.Take? || step.Release? || step.Renew? {
      LeaseShape(w, s, step);
      if Quiet(s, after, step.pass) { QuietKeeps(w, s, after, step.pass); }
      else { LeaseKeeps(w, s, after, step.pass, after.store.owner.value); }
    } else if step.Reserve? {
      ReserveShape(w, s, step);
      if Quiet(s, after, step.pass) { QuietKeeps(w, s, after, step.pass); }
      else { ReservationKeeps(w, s, after, step.pass, after.store.owner.value); }
    } else if step.Commit? {
      CommitShape(w, s, step);
      if Quiet(s, after, step.pass) { QuietKeeps(w, s, after, step.pass); }
      else { CommitKeeps(w, s, after, step.pass, after.store.owner.value); }
    } else if step.StageChunk? || step.StageManifest? || step.StageOutbox? {
      StagingShape(w, s, step);
      QuietKeeps(w, s, after, step.pass);
    } else if step.Get? || step.Keep? || step.Compile? || step.Crash? {
      LocalShape(w, s, step);
      QuietKeeps(w, s, after, step.pass);
    } else {
      OutsideShape(w, s, step);
      QuietKeeps(w, s, after, 0);
    }
  }
}
