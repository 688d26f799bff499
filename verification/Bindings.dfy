/** The versions of a resolver binding: what each write may do to them, and what deletion forgets. */
module Bindings {
  import opened Text

  type UID = string

  datatype Version = Version(epoch: int, sequence: int)

  datatype Spec = Spec(generation: int, revision: int, version: Version, zones: seq<UID>, tombstone: bool)

  predicate Newer(a: Version, b: Version) {
    a.epoch > b.epoch || (a.epoch == b.epoch && a.sequence > b.sequence)
  }

  /** The type's validation rules on an update. */
  predicate UpdateAllowed(before: Spec, after: Spec) {
    && after.generation >= before.generation && after.revision >= before.revision
    && (after.version == before.version || Newer(after.version, before.version))
    && (after.zones == before.zones || (after.generation > before.generation && after.revision > before.revision))
    && (after.tombstone == before.tombstone || after.revision > before.revision)
    && (before.tombstone && !after.tombstone ==> Newer(after.version, before.version))
  }

  const FIRST := Version(1, 1)

  /**
   * What reconcileContextBindings writes for the zones of a valid access binding;
   * a live binding whose zones did not change is left as it is.
   */
  function Applied(stored: Option<Spec>, zones: seq<UID>): Spec {
    match stored
    case None => Spec(1, 1, FIRST, zones, false)
    case Some(o) =>
      var changed := o.zones != zones;
      Spec(if changed then o.generation + 1 else o.generation,
           if changed || o.tombstone then o.revision + 1 else o.revision,
           if o.tombstone then o.version.(sequence := o.version.sequence + 1) else o.version,
           zones, false)
  }

  /** What retireContextBindings writes when access is withdrawn. */
  function Withdrawn(o: Spec): Spec {
    o.(tombstone := true, revision := o.revision + 1, version := o.version.(sequence := o.version.sequence + 1))
  }

  datatype Step = Apply(zones: seq<UID>) | Withdraw | Delete

  /**
   * `lives` lists the version of every live period so far with the number of
   * deletions before it.
   */
  datatype System = System(spec: Option<Spec>, deletions: nat, lives: seq<Period>)

  datatype Period = Period(version: Version, deletions: nat)

  predicate Starts(s: System) {
    s.spec.None? || s.spec.value.tombstone
  }

  function Next(s: System, step: Step): System {
    match step
    case Apply(zones) =>
      var after := Applied(s.spec, zones);
      s.(spec := Some(after), lives := if Starts(s) then s.lives + [Period(after.version, s.deletions)] else s.lives)
    case Withdraw =>
      if s.spec.Some? && !s.spec.value.tombstone then s.(spec := Some(Withdrawn(s.spec.value))) else s
    case Delete =>
      if s.spec.Some? && s.spec.value.tombstone then s.(spec := None, deletions := s.deletions + 1) else s
  }

  function After(steps: seq<Step>): System {
    if steps == [] then System(None, 0, []) else Next(After(steps[..|steps| - 1]), steps[|steps| - 1])
  }

  /** The binding written by any step meets the type's rules. */
  lemma WritesAllowed(steps: seq<Step>, step: Step)
    ensures var s := After(steps);
            var after := Next(s, step);
            s.spec.Some? && after.spec.Some? ==> UpdateAllowed(s.spec.value, after.spec.value)
  {
  }

  ghost predicate Rising(s: System) {
    && (forall i :: 0 <= i < |s.lives| ==> s.lives[i].deletions <= s.deletions)
    && (forall i, j :: 0 <= i < j < |s.lives| && s.lives[i].deletions == s.lives[j].deletions ==>
          Newer(s.lives[j].version, s.lives[i].version))
    && (forall i :: 0 <= i < |s.lives| && s.lives[i].deletions == s.deletions && s.spec.Some? ==>
          !Newer(s.lives[i].version, s.spec.value.version)
          && (s.spec.value.tombstone ==> Newer(s.spec.value.version, s.lives[i].version)))
    && (s.spec.None? ==> forall i :: 0 <= i < |s.lives| ==> s.lives[i].deletions < s.deletions)
    && (forall i :: 0 <= i < |s.lives| ==> s.lives[i].version == FIRST || Newer(s.lives[i].version, FIRST))
    && (s.spec.Some? ==> s.spec.value.version == FIRST || Newer(s.spec.value.version, FIRST))
  }

  lemma {:induction false} VersionsRise(steps: seq<Step>)
    ensures Rising(After(steps))
  {
    if steps != [] {
      VersionsRise(steps[..|steps| - 1]);
      match steps[|steps| - 1]
      case Apply(zones) => ApplyRises(After(steps[..|steps| - 1]), zones);
      case _ => RestRises(After(steps[..|steps| - 1]), steps[|steps| - 1]);
    }
  }

  lemma ApplyRises(s: System, zones: seq<UID>)
    requires Rising(s)
    ensures Rising(Next(s, Apply(zones)))
  {
  }

  lemma RestRises(s: System, step: Step)
    requires Rising(s) && !step.Apply?
    ensures Rising(Next(s, step))
  {
  }

  /**
   * After a deletion the version starts over: the first live period of the new
   * object is newer than no earlier one.
   */
  lemma DeletionStartsOver(steps: seq<Step>, zones: seq<UID>, i: nat)
    requires After(steps).spec.None? && i < |After(steps).lives|
    ensures var lives := Next(After(steps), Apply(zones)).lives;
            lives[|lives| - 1].version == FIRST && !Newer(lives[|lives| - 1].version, lives[i].version)
  {
    VersionsRise(steps);
  }

  // ----- exactly when versions rise -----------------------------------------

  /** Periods follow each other in order of deletions, each object's first one with the first version. */
  ghost predicate Sequenced(s: System) {
    && (forall k :: 0 < k < |s.lives| && s.lives[k - 1].deletions != s.lives[k].deletions ==> s.lives[k].version == FIRST)
    && (s.spec.Some? ==> s.lives != [] && s.lives[|s.lives| - 1].deletions == s.deletions)
  }

  lemma {:induction false} PeriodsSequenced(steps: seq<Step>)
    ensures Sequenced(After(steps))
  {
    if steps != [] {
      PeriodsSequenced(steps[..|steps| - 1]);
    }
  }

  ghost predicate OneObject(lives: seq<Period>) {
    forall i, j :: 0 <= i < j < |lives| ==> lives[i].deletions == lives[j].deletions
  }

  ghost predicate AllNewer(lives: seq<Period>) {
    forall i, j :: 0 <= i < j < |lives| ==> Newer(lives[j].version, lives[i].version)
  }

  lemma {:induction false} ChangeFound(lives: seq<Period>, i: nat, j: nat) returns (k: nat)
    requires i < j < |lives| && lives[i].deletions != lives[j].deletions
    ensures 0 < k < |lives| && lives[k - 1].deletions != lives[k].deletions
    decreases j
  {
    if lives[j - 1].deletions != lives[j].deletions {
      k := j;
    } else {
      k := ChangeFound(lives, i, j - 1);
    }
  }

  /**
   * Over every run, each later live period carries a newer access version than
   * each earlier one, if and only if the binding was never deleted between two
   * of them.
   */
  lemma VersionsRiseIff(steps: seq<Step>)
    ensures AllNewer(After(steps).lives) <==> OneObject(After(steps).lives)
  {
    var lives := After(steps).lives;
    VersionsRise(steps);
    PeriodsSequenced(steps);
    if !OneObject(lives) {
      var i, j :| 0 <= i < j < |lives| && lives[i].deletions != lives[j].deletions;
      var k := ChangeFound(lives, i, j);
      assert !Newer(lives[k].version, lives[k - 1].version);
    }
  }
}
