/**
 * Deleting a zone that several regional control planes publish. Each control
 * plane runs the publication protocol in its own store; what they share is the
 * zone's list of finalizers.
 */
module Finalizers {
  import opened Text
  import opened Publication
  import opened RunContent
  import opened RunTombstones
  import Runs

  type Region = string

  /**
   * One release of the zone: the publication that was active on the pass's copy
   * of the ownership record, whether it was reported Published, and whether the
   * control plane had published nothing and had nothing in the works.
   */
  datatype Departure = Departure(plane: string, active: Option<Id>, verified: bool, idle: bool)

  /**
   * `planes` are the control planes, each with its own store and passes, and
   * `verified` the manifests whose Published condition holds. `held` are the
   * regions with a publication finalizer on the zone, `shared` the finalizer
   * from before regions had their own, `serving` the regions some control plane
   * serves.
   */
  datatype System = System(
    planes: map<string, Runs.System>, verified: set<(string, Id)>, deleting: bool, held: set<Region>, shared: bool,
    serving: set<Region>, departures: seq<Departure>)

  datatype Step =
    | Exchange(plane: string, step: Runs.Step)
    | Hold(plane: string, bound: set<Region>)
    | Delete
    | Verify(plane: string, id: Id, complete: bool)
    | Release(plane: string, pass: nat)
    | StopServing(region: Region)

  // ----- the finalizer list -------------------------------------------------

  /** The finalizers releaseZone leaves: its own regions go, and those nobody serves any more. */
  function Remaining(held: set<Region>, own: set<Region>, serving: set<Region>): set<Region> {
    set r | r in held && r !in own && r in serving
  }

  function Regions(regions: seq<Region>): set<Region> {
    set r | r in regions
  }

  /** The zone object's finalizer list. */
  class Zone {
    var held: set<Region>
    var shared: bool

    constructor (h: set<Region>, s: bool)
      ensures held == h && shared == s
    {
      held, shared := h, s;
    }

    method ReleaseZone(own: seq<Region>, serving: set<Region>)
      modifies this
      ensures held == Remaining(old(held), Regions(own), serving)
      ensures shared == (old(shared) && held != {})
    {
      for i := 0 to |own|
        invariant held == old(held) - Regions(own[..i])
        invariant shared == old(shared)
      {
        held := held - {own[i]};
        assert own[..i + 1] == own[..i] + [own[i]];
      }
      assert own[..|own|] == own;
      var rest, kept := held, held;
      while rest != {}
        invariant rest <= held && held == old(held) - Regions(own)
        invariant kept == set r | r in held && (r in rest || r in serving)
        invariant shared == old(shared)
      {
        var r :| r in rest;
        rest := rest - {r};
        if r !in serving {
          kept := kept - {r};
        }
      }
      held := kept;
      if held == {} {
        shared := false;
      }
    }
  }

  // ----- control planes -----------------------------------------------------

  /** Every control plane is regional, and no two publish the same region. */
  ghost predicate Configured(worlds: string -> World) {
    && (forall n :: Sound(worlds(n)) && worlds(n).regional)
    && (forall m, n :: m != n ==> worlds(m).localRegions !! worlds(n).localRegions)
  }

  /** The active manifest is a withdrawal with no targets, or one reported Published. */
  predicate Acknowledged(store: Store, own: Ownership, verified: bool) {
    own.active.Some? && own.active.value in store.manifests &&
    var m := store.manifests[own.active.value];
    m.tombstone && m.zone == own.zone && m.id.epoch <= own.epoch && (m.serving == {} || verified)
  }

  /**
   * Whether a pass over a deleted zone ends by releasing it: nothing was
   * published here, or this epoch's withdrawal is active and acknowledged.
   */
  predicate MayRelease(w: World, store: Store, own: Ownership, verified: bool) {
    && !LoadPrevious(w, store, own).LoadFailed?
    && (own.active.Some? ==>
          && ActiveRevision(store, own).Some? && ActiveRevision(store, own).value > 0
          && own.lastHash == w.hash([])
          && Acknowledged(store, own, verified))
  }

  /** A live zone is compiled once this control plane's regions hold it, a deleted one only to withdraw it. */
  predicate ZoneAllows(w: World, s: System, x: Runs.Step) {
    x.Compile? ==> if x.tombstone then s.deleting else !s.deleting && w.localRegions <= s.held
  }

  /** Nothing is published and no draft could still be committed. */
  predicate Idle(p: Runs.System) {
    p.log == [] && forall t | t in p.passes :: HasDraft(p.passes[t]) ==> p.passes[t].version != p.store.version
  }

  /** What pass `t` of control plane `n` read when it released the zone. */
  function DepartureOf(p: Runs.System, s: System, n: string, own: Ownership): Departure {
    Departure(n, own.active, own.active.Some? && (n, own.active.value) in s.verified, Idle(p))
  }

  function AfterRelease(w: World, s: System, n: string, p: Runs.System, own: Ownership): System {
    var d := DepartureOf(p, s, n, own);
    if !s.deleting || !MayRelease(w, p.store, own, d.verified) then s
    else
      var held := Remaining(s.held, w.localRegions, s.serving);
      s.(held := held, shared := s.shared && held != {}, departures := s.departures + [d])
  }

  function AfterVerify(s: System, n: string, p: Runs.System, id: Id, complete: bool): System {
    if !Committed(p.log, id) then s
    else s.(verified := if complete then s.verified + {(n, id)} else s.verified - {(n, id)})
  }

  /** The control plane `n`; one that has done nothing yet has an empty store. */
  function PlaneOf(s: System, n: string): Runs.System {
    if n in s.planes then s.planes[n] else Runs.START
  }

  function Next(worlds: string -> World, s: System, step: Step): (after: System)
    ensures s.planes.Keys <= after.planes.Keys
  {
    match step
    case Exchange(n, x) =>
      if ZoneAllows(worlds(n), s, x)
      then s.(planes := s.planes[n := Runs.Next(worlds(n), PlaneOf(s, n), x)]) else s
    case Hold(n, bound) =>
      if !s.deleting then s.(held := s.held + worlds(n).localRegions + bound) else s
    case Delete => s.(deleting := true)
    case Verify(n, id, complete) => AfterVerify(s, n, PlaneOf(s, n), id, complete)
    case Release(n, t) =>
      if Runs.At(PlaneOf(s, n), t).Held?
      then AfterRelease(worlds(n), s, n, PlaneOf(s, n), Runs.At(PlaneOf(s, n), t).own) else s
    case StopServing(r) => s.(serving := s.serving - {r})
  }

  ghost predicate Fresh(s: System) {
    && (forall n :: n in s.planes ==> s.planes[n] == Runs.START)
    && s.verified == {} && !s.deleting && s.departures == []
  }

  function After(worlds: string -> World, start: System, steps: seq<Step>): (s: System)
    ensures start.planes.Keys <= s.planes.Keys
  {
    if steps == [] then start else Next(worlds, After(worlds, start, steps[..|steps| - 1]), steps[|steps| - 1])
  }
}
